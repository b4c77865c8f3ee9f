/**
The bus producer that stores messages for later delivery: message types are registered for topics,
and scheduling a list of messages stores one row for each message and each topic of its type.
*/
module BusProducer {
  import opened Options

  type Topic = nat
  type GoType = nat   // the reflected type of a message
  type Time = int

  datatype Schema = Schema(gotype: GoType, name: string)          // a blank message and the name it reports
  datatype Message = Message(id: nat, gotype: GoType, payload: nat)
  datatype Key = Key(id: nat, topic: Topic)
  datatype Row = Row(payload: nat, at: Time)
  datatype Error = BlankName | DuplicateName | UnknownType | StoreFailed

  datatype Registration = Registration(topic: Topic, schema: Schema)

  // ------------------------------------------------------------------ what registration means

  /** The topics of a type, in the order they were registered. */
  function TopicsOf(regs: seq<Registration>, g: GoType): seq<Topic> {
    if regs == [] then []
    else
      var r := regs[|regs| - 1];
      TopicsOf(regs[..|regs| - 1], g) + if r.schema.gotype == g then [r.topic] else []
  }

  lemma {:induction false} TopicsOfIn(regs: seq<Registration>, g: GoType, t: Topic)
    ensures t in TopicsOf(regs, g) <==> exists i :: 0 <= i < |regs| && regs[i].schema.gotype == g && regs[i].topic == t
    decreases |regs|
  {
    if regs != [] {
      var n := |regs| - 1;
      TopicsOfIn(regs[..n], g, t);
      if t in TopicsOf(regs[..n], g) {
        var i :| 0 <= i < n && regs[..n][i].schema.gotype == g && regs[..n][i].topic == t;
        assert regs[i].schema.gotype == g && regs[i].topic == t;
      }
      if i :| 0 <= i < |regs| && regs[i].schema.gotype == g && regs[i].topic == t {
        assert i < n ==> regs[..n][i] == regs[i];
      }
    }
  }

  ghost predicate TopicsMatch(messageTopics: map<GoType, seq<Topic>>, regs: seq<Registration>) {
    forall g: GoType :: (g in messageTopics <==> TopicsOf(regs, g) != []) &&
        (g in messageTopics ==> messageTopics[g] == TopicsOf(regs, g))
  }

  ghost predicate ProducersMatch(producers: set<(Topic, GoType)>, regs: seq<Registration>) {
    forall t: Topic, g: GoType :: (t, g) in producers <==> t in TopicsOf(regs, g)
  }

  /** The names of a topic are those registered in it, each once. */
  ghost predicate NamesMatch(names: map<Topic, set<string>>, regs: seq<Registration>) {
    && (forall i :: 0 <= i < |regs| ==> regs[i].topic in names && regs[i].schema.name in names[regs[i].topic])
    && (forall t, name :: t in names && name in names[t] ==> HasName(regs, t, name))
    && (forall i, j :: 0 <= i < j < |regs| ==>
        regs[i].topic != regs[j].topic || regs[i].schema.name != regs[j].schema.name)
  }

  ghost predicate HasName(regs: seq<Registration>, t: Topic, name: string) {
    exists i :: 0 <= i < |regs| && regs[i].topic == t && regs[i].schema.name == name
  }

  lemma TopicsOfMore(regs: seq<Registration>, topic: Topic, schema: Schema, g: GoType)
    ensures TopicsOf(regs + [Registration(topic, schema)], g) == TopicsOf(regs, g)
            + if schema.gotype == g then [topic] else []
  {
    assert (regs + [Registration(topic, schema)])[..|regs|] == regs;
  }

  function WithTopic(messageTopics: map<GoType, seq<Topic>>, g: GoType, topic: Topic): map<GoType, seq<Topic>> {
    messageTopics[g := (if g in messageTopics then messageTopics[g] else []) + [topic]]
  }

  function WithName(names: map<Topic, set<string>>, topic: Topic, name: string): map<Topic, set<string>> {
    names[topic := (if topic in names then names[topic] else {}) + {name}]
  }

  lemma TopicsAfter(messageTopics: map<GoType, seq<Topic>>, regs: seq<Registration>, topic: Topic, schema: Schema)
    requires TopicsMatch(messageTopics, regs)
    ensures TopicsMatch(WithTopic(messageTopics, schema.gotype, topic), regs + [Registration(topic, schema)])
  {
    forall g ensures TopicsOf(regs + [Registration(topic, schema)], g) == TopicsOf(regs, g)
        + if schema.gotype == g then [topic] else [] {
      TopicsOfMore(regs, topic, schema, g);
    }
  }

  lemma ProducersAfter(producers: set<(Topic, GoType)>, regs: seq<Registration>, topic: Topic, schema: Schema)
    requires ProducersMatch(producers, regs)
    ensures ProducersMatch(producers + {(topic, schema.gotype)}, regs + [Registration(topic, schema)])
  {
    var producers', regs' := producers + {(topic, schema.gotype)}, regs + [Registration(topic, schema)];
    forall t: Topic, g: GoType ensures (t, g) in producers' <==> t in TopicsOf(regs', g) {
      TopicsOfMore(regs, topic, schema, g);
      assert (t, g) in producers <==> t in TopicsOf(regs, g);
    }
  }

  lemma NameTaken(names: map<Topic, set<string>>, regs: seq<Registration>, t: Topic, name: string)
    requires NamesMatch(names, regs)
    ensures HasName(regs, t, name) <==> t in names && name in names[t]
  {
  }

  lemma NamesAfter(names: map<Topic, set<string>>, regs: seq<Registration>, topic: Topic, schema: Schema)
    requires NamesMatch(names, regs) && (topic in names ==> schema.name !in names[topic])
    ensures NamesMatch(WithName(names, topic, schema.name), regs + [Registration(topic, schema)])
  {
    var regs' := regs + [Registration(topic, schema)];
    var names' := WithName(names, topic, schema.name);
    forall t, name | t in names' && name in names'[t] ensures HasName(regs', t, name) {
      if t == topic && name == schema.name {
        assert regs'[|regs|].topic == t && regs'[|regs|].schema.name == name;
      } else {
        assert HasName(regs, t, name);
        var i :| 0 <= i < |regs| && regs[i].topic == t && regs[i].schema.name == name;
        assert regs'[i] == regs[i];
      }
    }
  }

  lemma OneRegistrationMore(before: seq<Registration>, msgs: seq<Registration>, i: nat)
    requires i < |msgs|
    ensures before + msgs[..i] + [Registration(msgs[i].topic, msgs[i].schema)] == before + msgs[..i + 1]
  {
    assert msgs[..i + 1] == msgs[..i] + [msgs[i]];
  }

  /** The first n registrations of a list were made, and the next one is blank or taken. */
  ghost predicate RefusedAt(before: seq<Registration>, msgs: seq<Registration>, after: seq<Registration>, n: nat) {
    && n < |msgs| && after == before + msgs[..n]
    && (msgs[n].schema.name == "" || HasName(after, msgs[n].topic, msgs[n].schema.name))
  }

  ghost predicate AllMatch(
      messageTopics: map<GoType, seq<Topic>>, producers: set<(Topic, GoType)>, names: map<Topic, set<string>>,
          regs: seq<Registration>)
  {
    TopicsMatch(messageTopics, regs) && ProducersMatch(producers, regs) && NamesMatch(names, regs)
  }

  lemma AllMatchAfter(
      messageTopics: map<GoType, seq<Topic>>, producers: set<(Topic, GoType)>, names: map<Topic, set<string>>,
          regs: seq<Registration>,
      topic: Topic, schema: Schema)
    requires AllMatch(messageTopics, producers, names, regs) && (topic in names ==> schema.name !in names[topic])
    ensures AllMatch(WithTopic(messageTopics, schema.gotype, topic), producers + {(topic, schema.gotype)},
                     WithName(names, topic, schema.name), regs + [Registration(topic, schema)])
  {
    TopicsAfter(messageTopics, regs, topic, schema);
    ProducersAfter(producers, regs, topic, schema);
    NamesAfter(names, regs, topic, schema);
  }

  // ------------------------------------------------------------------ what scheduling means

  predicate Wants(regs: seq<Registration>, m: Message, k: Key) {
    m.id == k.id && k.topic in TopicsOf(regs, m.gotype)
  }

  /** m is the first message of the list that is to be stored under k. */
  ghost predicate FirstFor(regs: seq<Registration>, msgs: seq<Message>, k: Key, m: nat) {
    m < |msgs| && Wants(regs, msgs[m], k) && forall j :: 0 <= j < m ==> !Wants(regs, msgs[j], k)
  }

  /**
  The table after one store per message and registered topic: rows that were there stay as they
  were, and each missing one is added once, with the content of the first message of its key.
  */
  ghost predicate Scheduled(regs: seq<Registration>, msgs: seq<Message>, before: map<Key, Row>, after: map<Key, Row>,
      lo: Time, hi: Time) {
    && (forall k :: k in before ==> k in after && after[k] == before[k])
    && (forall k, m :: 0 <= m < |msgs| && Wants(regs, msgs[m], k) ==> k in after)
    && (forall k :: k in after && k !in before ==>
          lo <= after[k].at <= hi && exists m: nat :: FirstFor(regs, msgs, k, m) && after[k].payload == msgs[m].payload)
  }

  /** Insert with "on conflict do nothing". */
  function Store(table: map<Key, Row>, k: Key, row: Row): map<Key, Row> {
    if k in table then table else table[k := row]
  }

  /** The table after storing one message for these topics. */
  ghost predicate StoredFor(m: Message, topics: seq<Topic>, before: map<Key, Row>, after: map<Key, Row>, lo: Time,
      hi: Time) {
    && (forall k :: k in before ==> k in after && after[k] == before[k])
    && (forall t :: t in topics ==> Key(m.id, t) in after)
    && (forall k :: k in after && k !in before ==>
          lo <= after[k].at <= hi && k.id == m.id && k.topic in topics && after[k].payload == m.payload)
  }

  lemma ScheduledMore(regs: seq<Registration>, msgs: seq<Message>, i: nat, topics: seq<Topic>,
                      before: map<Key, Row>, mid: map<Key, Row>, after: map<Key, Row>, lo: Time, hi: Time, lo': Time,
                          hi': Time)
    requires i < |msgs| && Scheduled(regs, msgs[..i], before, mid, lo, hi) &&
             StoredFor(msgs[i], topics, mid, after, lo', hi')
    requires lo <= lo' && hi <= hi' && forall t :: t in topics <==> t in TopicsOf(regs, msgs[i].gotype)
    ensures Scheduled(regs, msgs[..i + 1], before, after, lo, hi')
  {
    var more := msgs[..i + 1];
    assert more[..i] == msgs[..i];
    forall k, m | 0 <= m < |more| && Wants(regs, more[m], k) ensures k in after {
      if m < i { assert more[m] == msgs[..i][m]; }
    }
    forall k | k in after && k !in before
      ensures lo <= after[k].at <= hi'
      ensures exists m: nat :: FirstFor(regs, more, k, m) && after[k].payload == more[m].payload
    {
      if k in mid {
        var m: nat :| FirstFor(regs, msgs[..i], k, m) && mid[k].payload == msgs[..i][m].payload;
        assert more[m] == msgs[..i][m];
        assert FirstFor(regs, more, k, m) by { assert forall j :: 0 <= j < m ==> more[j] == msgs[..i][j]; }
      } else {
        assert Wants(regs, more[i], k);
        assert FirstFor(regs, more, k, i) by { assert forall j :: 0 <= j < i ==> more[j] == msgs[..i][j]; }
      }
    }
  }

  lemma NothingScheduled(regs: seq<Registration>, msgs: seq<Message>, table: map<Key, Row>, at: Time)
    requires msgs == []
    ensures Scheduled(regs, msgs, table, table, at, at)
  {
  }

  /**
  Nothing was lost or changed, and only rows the list asks for were added, each with the content of the first
  message of its key.
  */
  ghost predicate Partly(regs: seq<Registration>, msgs: seq<Message>, before: map<Key, Row>, after: map<Key, Row>,
      lo: Time, hi: Time) {
    && (forall k :: k in before ==> k in after && after[k] == before[k])
    && (forall k :: k in after && k !in before ==>
          lo <= after[k].at <= hi && exists m: nat :: FirstFor(regs, msgs, k, m) && after[k].payload == msgs[m].payload)
  }

  lemma FirstForMore(regs: seq<Registration>, msgs: seq<Message>, i: nat, k: Key, m: nat)
    requires i <= |msgs| && FirstFor(regs, msgs[..i], k, m)
    ensures FirstFor(regs, msgs, k, m)
  {
    assert forall j :: 0 <= j <= m ==> msgs[..i][j] == msgs[j];
  }

  lemma PartlyScheduled(regs: seq<Registration>, msgs: seq<Message>, i: nat, topics: seq<Topic>,
                        before: map<Key, Row>, mid: map<Key, Row>, after: map<Key, Row>, lo: Time, hi: Time,
                            lo': Time, hi': Time)
    requires i < |msgs| && Scheduled(regs, msgs[..i], before, mid, lo, hi)
    requires StoredFor(msgs[i], topics, mid, after, lo', hi') && lo <= lo' && hi <= hi'
    requires forall t :: t in topics ==> t in TopicsOf(regs, msgs[i].gotype)
    ensures Partly(regs, msgs, before, after, lo, hi')
  {
    forall k | k in after && k !in before
      ensures lo <= after[k].at <= hi'
      ensures exists m: nat :: FirstFor(regs, msgs, k, m) && after[k].payload == msgs[m].payload
    {
      if k in mid {
        var m: nat :| FirstFor(regs, msgs[..i], k, m) && mid[k].payload == msgs[..i][m].payload;
        FirstForMore(regs, msgs, i, k, m);
      } else {
        assert Wants(regs, msgs[i], k);
        assert FirstFor(regs, msgs, k, i) by { assert forall j :: 0 <= j < i ==> msgs[..i][j] == msgs[j]; }
      }
    }
  }

  /** The calls made are some of those to be made, in order, and not all of them. */
  ghost predicate CallsCut(before: seq<(Message, Topic)>, after: seq<(Message, Topic)>, all: seq<(Message, Topic)>) {
    exists n :: 0 <= n < |all| && after == before + all[..n]
  }

  lemma CutLater(before: seq<(Message, Topic)>, mid: seq<(Message, Topic)>, after: seq<(Message, Topic)>,
      first: seq<(Message, Topic)>, block: seq<(Message, Topic)>, rest: seq<(Message, Topic)>)
    requires mid == before + first && CallsCut(mid, after, block)
    ensures CallsCut(before, after, first + block + rest)
  {
    var n :| 0 <= n < |block| && after == mid + block[..n];
    assert (first + block + rest)[..|first| + n] == first + block[..n];
  }

  lemma RepeatedTopics(regs: seq<Registration>, msgs: seq<Message>, m: Message)
    requires Occurrences(msgs, m.gotype) > 0
    ensures forall t :: t in Repeat(TopicsOf(regs, m.gotype), Occurrences(msgs, m.gotype)) <==>
            t in TopicsOf(regs, m.gotype)
  {
    forall t ensures t in Repeat(TopicsOf(regs, m.gotype), Occurrences(msgs, m.gotype)) <==>
        t in TopicsOf(regs, m.gotype) {
      RepeatIn(TopicsOf(regs, m.gotype), Occurrences(msgs, m.gotype), t);
    }
  }

  // ---- the calls the loop makes

  function Occurrences(msgs: seq<Message>, g: GoType): nat {
    if msgs == [] then 0 else Occurrences(msgs[..|msgs| - 1], g) + if msgs[|msgs| - 1].gotype == g then 1 else 0
  }

  function Repeat(topics: seq<Topic>, n: nat): seq<Topic> {
    if n == 0 then [] else Repeat(topics, n - 1) + topics
  }

  lemma {:induction false} RepeatIn(topics: seq<Topic>, n: nat, t: Topic)
    ensures t in Repeat(topics, n) <==> n > 0 && t in topics
  {
    if n > 0 { RepeatIn(topics, n - 1, t); }
  }

  ghost predicate AllKnown(regs: seq<Registration>, msgs: seq<Message>) {
    forall i :: 0 <= i < |msgs| ==> TopicsOf(regs, msgs[i].gotype) != []
  }

  /** The topics of each type, once for every message of that type. */
  ghost predicate Resolved(topics: map<GoType, seq<Topic>>, regs: seq<Registration>, msgs: seq<Message>) {
    && (forall g: GoType :: g in topics <==> Occurrences(msgs, g) > 0)
    && (forall g: GoType :: g in topics ==> topics[g] == Repeat(TopicsOf(regs, g), Occurrences(msgs, g)))
  }

  lemma ResolvedMore(topics: map<GoType, seq<Topic>>, regs: seq<Registration>, msgs: seq<Message>, m: Message)
    requires Resolved(topics, regs, msgs)
    ensures var g := m.gotype;
            Resolved(topics[g := (if g in topics then topics[g] else []) + TopicsOf(regs, g)], regs, msgs + [m])
  {
    assert (msgs + [m])[..|msgs|] == msgs;
    var topics' := topics[m.gotype := (if m.gotype in topics then topics[m.gotype] else []) + TopicsOf(regs, m.gotype)];
    forall g: GoType
      ensures g in topics' <==> Occurrences(msgs + [m], g) > 0
      ensures g in topics' ==> topics'[g] == Repeat(TopicsOf(regs, g), Occurrences(msgs + [m], g))
    {
      assert Occurrences(msgs + [m], g) == Occurrences(msgs, g) + if g == m.gotype then 1 else 0;
      assert g in topics <==> Occurrences(msgs, g) > 0;
    }
  }

  /** The topics found for message i: those of its type, each once for every message of that type. */
  ghost predicate Ready(topics: map<GoType, seq<Topic>>, regs: seq<Registration>, msgs: seq<Message>, i: nat)
    requires i < |msgs|
  {
    var g := msgs[i].gotype;
    && g in topics && topics[g] == Repeat(TopicsOf(regs, g), Occurrences(msgs, g))
    && forall t :: t in topics[g] <==> t in TopicsOf(regs, g)
  }

  lemma ResolvedAt(topics: map<GoType, seq<Topic>>, regs: seq<Registration>, msgs: seq<Message>, i: nat)
    requires Resolved(topics, regs, msgs) && i < |msgs|
    ensures Ready(topics, regs, msgs, i)
  {
    OccursInList(msgs, i);
    RepeatedTopics(regs, msgs, msgs[i]);
  }

  lemma {:induction false} OccursInList(msgs: seq<Message>, i: nat)
    requires i < |msgs|
    ensures Occurrences(msgs, msgs[i].gotype) > 0
    decreases |msgs|
  {
    var n := |msgs| - 1;
    if i < n {
      OccursInList(msgs[..n], i);
    }
  }

  function CallsFor(m: Message, topics: seq<Topic>): (r: seq<(Message, Topic)>)
    ensures |r| == |topics|
  {
    seq(|topics|, i requires 0 <= i < |topics| => (m, topics[i]))
  }

  /** The calls for one occurrence of a message. */
  function Block(regs: seq<Registration>, msgs: seq<Message>, x: Message): seq<(Message, Topic)> {
    CallsFor(x, Repeat(TopicsOf(regs, x.gotype), Occurrences(msgs, x.gotype)))
  }

  /**
  One call for every message of the prefix and every topic of its type, repeated once per message of
  that type in the list.
  */
  function Calls(regs: seq<Registration>, msgs: seq<Message>, n: nat): seq<(Message, Topic)>
    requires n <= |msgs|
  {
    if n == 0 then [] else Calls(regs, msgs, n - 1) + Block(regs, msgs, msgs[n - 1])
  }

  /** The calls for a prefix of the messages come first. */
  lemma {:induction false} CallsBegin(regs: seq<Registration>, msgs: seq<Message>, i: nat, n: nat)
      returns (rest: seq<(Message, Topic)>)
    requires i <= n <= |msgs|
    ensures Calls(regs, msgs, n) == Calls(regs, msgs, i) + rest
    decreases n
  {
    if i == n {
      rest := [];
    } else {
      rest := CallsBegin(regs, msgs, i, n - 1);
      rest := rest + Block(regs, msgs, msgs[n - 1]);
    }
  }

  lemma CutInList(before: seq<(Message, Topic)>, mid: seq<(Message, Topic)>, after: seq<(Message, Topic)>,
      regs: seq<Registration>, msgs: seq<Message>, i: nat)
    requires i < |msgs| && mid == before + Calls(regs, msgs, i) && CallsCut(mid, after, Block(regs, msgs, msgs[i]))
    ensures CallsCut(before, after, Calls(regs, msgs, |msgs|))
  {
    var rest := CallsBegin(regs, msgs, i + 1, |msgs|);
    CutLater(before, mid, after, Calls(regs, msgs, i), Block(regs, msgs, msgs[i]), rest);
  }

  lemma CallsMore(called: seq<(Message, Topic)>, regs: seq<Registration>, msgs: seq<Message>, i: nat)
    requires i < |msgs|
    ensures called + Calls(regs, msgs, i + 1) == called + Calls(regs, msgs, i) + Block(regs, msgs, msgs[i])
  {
  }

  lemma ReadyBlock(topics: map<GoType, seq<Topic>>, regs: seq<Registration>, msgs: seq<Message>, i: nat)
    requires i < |msgs| && Ready(topics, regs, msgs, i)
    ensures CallsFor(msgs[i], topics[msgs[i].gotype]) == Block(regs, msgs, msgs[i])
  {
  }

  // ------------------------------------------------------------------ the producer

  class BusProducer {
    var messageTopics: map<GoType, seq<Topic>>
    var producers: set<(Topic, GoType)>
    var topicMessages: map<Topic, set<string>>
    var table: map<Key, Row>
    var clock: Time
    var faults: nat                       // how many more stores may fail
    var calls: seq<(Message, Topic)>      // produce calls that returned nil
    ghost var regs: seq<Registration>     // registrations that returned nil

    /** The three maps are views of the same registrations. */
    ghost predicate Valid()
      reads this
    {
      AllMatch(messageTopics, producers, topicMessages, regs)
    }

    constructor (table: map<Key, Row>, clock: Time, faults: nat)
      ensures Valid() && regs == [] && calls == [] && this.table == table && this.clock == clock
      ensures this.faults == faults
    {
      messageTopics, producers, topicMessages := map[], {}, map[];
      this.table, this.clock, this.faults := table, clock, faults;
      calls := [];
      regs := [];
    }

    /** Registers one message type; refused for a blank name and for a name the topic already has. */
    method RegisterOne(topic: Topic, schema: Schema) returns (err: Option<Error>)
      requires Valid()
      modifies this`messageTopics, this`producers, this`topicMessages, this`regs
      ensures Valid()
      ensures err == if schema.name == "" then Some(BlankName)
                     else if HasName(old(regs), topic, schema.name)
                     then Some(DuplicateName) else None
      ensures regs == if err.None? then old(regs) + [Registration(topic, schema)] else old(regs)
    {
      if schema.name == "" {
        return Some(BlankName);
      }
      NameTaken(topicMessages, regs, topic, schema.name);
      if topic in topicMessages && schema.name in topicMessages[topic] {
        return Some(DuplicateName);
      }
      Enter(topic, schema);
      return None;
    }

    /** Enters a type into the three maps. */
    method Enter(topic: Topic, schema: Schema)
      requires Valid() && (topic in topicMessages ==> schema.name !in topicMessages[topic])
      modifies this`messageTopics, this`producers, this`topicMessages, this`regs
      ensures Valid() && regs == old(regs) + [Registration(topic, schema)]
    {
      AllMatchAfter(messageTopics, producers, topicMessages, regs, topic, schema);
      messageTopics, producers, topicMessages, regs :=
        WithTopic(messageTopics, schema.gotype, topic), producers + {(topic, schema.gotype)},
        WithName(topicMessages, topic, schema.name), regs + [Registration(topic, schema)];
    }

    /** Registers types for topics, in the order given, up to the first refusal. */
    method Register(msgs: seq<Registration>) returns (err: Option<Error>)
      requires Valid()
      modifies this`messageTopics, this`producers, this`topicMessages, this`regs
      ensures Valid()
      ensures err.None? ==> regs == old(regs) + msgs
      ensures err.Some? ==> exists n: nat :: RefusedAt(old(regs), msgs, regs, n)
    {
      ghost var before := regs;
      assert before + msgs[..0] == before;
      for i := 0 to |msgs|
        invariant Valid() && regs == before + msgs[..i]
      {
        err := RegisterOne(msgs[i].topic, msgs[i].schema);
        if err.Some? {
          assert RefusedAt(before, msgs, regs, i);
          return;
        }
        OneRegistrationMore(before, msgs, i);
      }
      assert msgs[..|msgs|] == msgs;
      err := None;
    }

    /** The second lookup: every topic registered for a type has a producer for it, so it cannot fail. */
    method HasProducers(g: GoType) returns (ok: bool)
      requires Valid() && g in messageTopics
      ensures ok && messageTopics[g] == TopicsOf(regs, g) != [] && forall t :: t in messageTopics[g] ==>
              (t, g) in producers
    {
      ok := true;
      for j := 0 to |messageTopics[g]|
        invariant ok && forall i :: 0 <= i < j ==> (messageTopics[g][i], g) in producers
      {
        assert messageTopics[g][j] in TopicsOf(regs, g);
        ok := (messageTopics[g][j], g) in producers;
      }
    }

    /**
    The first loop of scheduling: looks up the topics of every message, appending them again for
    every message of the same type, and checks that each has a producer.
    */
    method Resolve(msgs: seq<Message>) returns (err: Option<Error>, topics: map<GoType, seq<Topic>>)
      requires Valid()
      ensures err == if AllKnown(regs, msgs) then None else Some(UnknownType)
      ensures err.None? ==> Resolved(topics, regs, msgs)
    {
      topics := map[];
      for i := 0 to |msgs|
        invariant AllKnown(regs, msgs[..i])
        invariant Resolved(topics, regs, msgs[..i])
      {
        var g := msgs[i].gotype;
        var known := g in messageTopics;
        if known {
          known := HasProducers(g);
        }
        if !known {
          assert TopicsOf(regs, msgs[i].gotype) == [];
          return Some(UnknownType), topics;
        }
        ResolvedMore(topics, regs, msgs[..i], msgs[i]);
        assert msgs[..i + 1] == msgs[..i] + [msgs[i]];
        topics := topics[g := (if g in topics then topics[g] else []) + messageTopics[g]];
      }
      assert msgs[..|msgs|] == msgs;
      err := None;
    }

    /** Whether the next store succeeds. */
    method Try() returns (ok: bool)
      modifies this`faults
      ensures faults == if ok then old(faults) else old(faults) - 1
      ensures old(faults) == 0 ==> ok
    {
      ok := true;
      if faults > 0 {
        ok := *;
        if !ok {
          faults := faults - 1;
        }
      }
    }

    /** Stores one message for a list of topics, up to the first failure. */
    method StoreFor(m: Message, topics: seq<Topic>, at: Option<Time>) returns (ok: bool)
      modifies this`table, this`clock, this`faults, this`calls
      ensures clock >= old(clock) && faults == if ok then old(faults) else old(faults) - 1
      ensures ok ==> calls == old(calls) + CallsFor(m, topics)
      ensures ok ==> StoredFor(m, topics, old(table), table, Lo(at, old(clock)), Lo(at, clock))
      ensures !ok ==> CallsCut(old(calls), calls, CallsFor(m, topics))
      ensures !ok ==>
                exists n :: 0 <= n <= |topics|
                            && StoredFor(m, topics[..n], old(table), table, Lo(at, old(clock)), Lo(at, clock))
    {
      assert calls == old(calls) + CallsFor(m, topics)[..0];
      for i := 0 to |topics|
        invariant clock >= old(clock) && faults == old(faults)
        invariant calls == old(calls) + CallsFor(m, topics)[..i]
        invariant StoredFor(m, topics[..i], old(table), table, Lo(at, old(clock)), Lo(at, clock))
      {
        ok := Try();
        if !ok {
          return;
        }
        var now: Time := *;
        clock := if now > clock then now else clock;
        var k := Key(m.id, topics[i]);
        assert topics[..i + 1] == topics[..i] + [topics[i]];
        table := Store(table, k, Row(m.payload, if at.Some? then at.value else clock));
        assert CallsFor(m, topics)[..i + 1] == CallsFor(m, topics)[..i] + [(m, topics[i])];
        calls := calls + [(m, topics[i])];
      }
      assert topics[..|topics|] == topics;
      assert CallsFor(m, topics)[..|topics|] == CallsFor(m, topics);
      ok := true;
    }

    /**
    Schedules a list of messages. An unregistered type fails before anything is stored. On success
    the table is the one of a single store per message and registered topic, although each such store
    was made as often as the list has messages of that type. A failed store leaves a part of that. A row that
    was added has the given time, or else that of the clock while it was stored.
    */
    method Schedule(at: Option<Time>, msgs: seq<Message>) returns (err: Option<Error>)
      requires Valid()
      modifies this`table, this`clock, this`faults, this`calls
      ensures Valid() && clock >= old(clock)
      ensures !AllKnown(regs, msgs) <==> err == Some(UnknownType)
      ensures err == Some(UnknownType) ==> table == old(table) && calls == old(calls)
      ensures err.None? ==> Scheduled(regs, msgs, old(table), table, Lo(at, old(clock)), Lo(at, clock))
      ensures err.None? ==> calls == old(calls) + Calls(regs, msgs, |msgs|)
      ensures err in {None, Some(UnknownType), Some(StoreFailed)}
      ensures err == Some(StoreFailed) ==> Partly(regs, msgs, old(table), table, Lo(at, old(clock)), Lo(at, clock))
      ensures err == Some(StoreFailed) ==> CallsCut(old(calls), calls, Calls(regs, msgs, |msgs|))
      ensures faults == if err == Some(StoreFailed) then old(faults) - 1 else old(faults)
      ensures at.Some? ==> forall k :: k in table && k !in old(table) ==> table[k].at == at.value
      ensures at.None? ==> forall k :: k in table && k !in old(table) ==> old(clock) <= table[k].at <= clock
    {
      var topics;
      err, topics := Resolve(msgs);
      if err.Some? {
        return;
      }
      forall i | 0 <= i < |msgs| ensures Ready(topics, regs, msgs, i) {
        ResolvedAt(topics, regs, msgs, i);
      }
      err := StoreAll(at, msgs, topics);
    }

    /** The second loop of scheduling. */
    method StoreAll(at: Option<Time>, msgs: seq<Message>, topics: map<GoType, seq<Topic>>) returns (err: Option<Error>)
      requires forall i :: 0 <= i < |msgs| ==> Ready(topics, regs, msgs, i)
      modifies this`table, this`clock, this`faults, this`calls
      ensures clock >= old(clock) && err in {None, Some(StoreFailed)}
      ensures faults == if err.Some? then old(faults) - 1 else old(faults)
      ensures err.None? ==> Scheduled(regs, msgs, old(table), table, Lo(at, old(clock)), Lo(at, clock))
      ensures err.None? ==> calls == old(calls) + Calls(regs, msgs, |msgs|)
      ensures err.Some? ==> Partly(regs, msgs, old(table), table, Lo(at, old(clock)), Lo(at, clock))
      ensures err.Some? ==> CallsCut(old(calls), calls, Calls(regs, msgs, |msgs|))
    {
      ghost var before, lo, called := table, Lo(at, clock), calls;
      NothingScheduled(regs, msgs[..0], table, lo);
      for i := 0 to |msgs|
        invariant clock >= old(clock) && faults == old(faults)
        invariant Scheduled(regs, msgs[..i], before, table, lo, Lo(at, clock))
        invariant calls == called + Calls(regs, msgs, i)
      {
        assert Ready(topics, regs, msgs, i);
        CallsMore(called, regs, msgs, i);
        ReadyBlock(topics, regs, msgs, i);
        ghost var mid := calls;
        var ok := StoreMessage(at, msgs, i, topics[msgs[i].gotype], before, lo);
        if !ok {
          CutInList(called, mid, calls, regs, msgs, i);
          return Some(StoreFailed);
        }
      }
      assert msgs[..|msgs|] == msgs;
      err := None;
    }

    /** One round of the second loop, for message i of the list and its repeated topics. */
    method StoreMessage(at: Option<Time>, msgs: seq<Message>, i: nat, topics: seq<Topic>, ghost before: map<Key, Row>,
        ghost lo: Time)
      returns (ok: bool)
      requires i < |msgs| && forall t :: t in topics <==> t in TopicsOf(regs, msgs[i].gotype)
      requires lo <= Lo(at, clock) && Scheduled(regs, msgs[..i], before, table, lo, Lo(at, clock))
      modifies this`table, this`clock, this`faults, this`calls
      ensures clock >= old(clock) && faults == if ok then old(faults) else old(faults) - 1
      ensures ok ==> calls == old(calls) + CallsFor(msgs[i], topics)
      ensures ok ==> Scheduled(regs, msgs[..i + 1], before, table, lo, Lo(at, clock))
      ensures !ok ==> CallsCut(old(calls), calls, CallsFor(msgs[i], topics))
      ensures !ok ==> Partly(regs, msgs, before, table, lo, Lo(at, clock))
    {
      ghost var mid, since := table, Lo(at, clock);
      ok := StoreFor(msgs[i], topics, at);
      if ok {
        ScheduledMore(regs, msgs, i, topics, before, mid, table, lo, since, since, Lo(at, clock));
      } else {
        ghost var n :| 0 <= n <= |topics| && StoredFor(msgs[i], topics[..n], mid, table, since, Lo(at, clock));
        PartlyScheduled(regs, msgs, i, topics[..n], before, mid, table, lo, since, since, Lo(at, clock));
      }
    }
  }

  function Lo(at: Option<Time>, clock: Time): Time {
    if at.Some? then at.value else clock
  }

  // ------------------------------------------------------------------ how often a pair is produced

  /** How often a topic is in a list. */
  function Mult(topics: seq<Topic>, t: Topic): nat {
    if topics == [] then 0 else Mult(topics[..|topics| - 1], t) + if topics[|topics| - 1] == t then 1 else 0
  }

  /** How often a message was produced for a topic. */
  function Times(calls: seq<(Message, Topic)>, m: Message, t: Topic): nat {
    if calls == [] then 0 else Times(calls[..|calls| - 1], m, t) + if calls[|calls| - 1] == (m, t) then 1 else 0
  }

  /** How often a message is in the first n places of a list. */
  function Copies(msgs: seq<Message>, n: nat, m: Message): nat
    requires n <= |msgs|
  {
    if n == 0 then 0 else Copies(msgs, n - 1, m) + if msgs[n - 1] == m then 1 else 0
  }

  lemma {:induction false} MultConcat(a: seq<Topic>, b: seq<Topic>, t: Topic)
    ensures Mult(a + b, t) == Mult(a, t) + Mult(b, t)
    decreases |b|
  {
    if b == [] {
      assert a + b == a;
    } else {
      assert (a + b)[..|a + b| - 1] == a + b[..|b| - 1];
      MultConcat(a, b[..|b| - 1], t);
    }
  }

  lemma {:induction false} TimesConcat(a: seq<(Message, Topic)>, b: seq<(Message, Topic)>, m: Message, t: Topic)
    ensures Times(a + b, m, t) == Times(a, m, t) + Times(b, m, t)
    decreases |b|
  {
    if b == [] {
      assert a + b == a;
    } else {
      assert (a + b)[..|a + b| - 1] == a + b[..|b| - 1];
      TimesConcat(a, b[..|b| - 1], m, t);
    }
  }

  lemma {:induction false} RepeatMult(topics: seq<Topic>, k: nat, t: Topic)
    ensures Mult(Repeat(topics, k), t) == k * Mult(topics, t)
  {
    if k > 0 {
      RepeatMult(topics, k - 1, t);
      MultConcat(Repeat(topics, k - 1), topics, t);
      OneMore(k - 1, Mult(topics, t));
    }
  }

  lemma {:induction false} CallsForTimes(x: Message, topics: seq<Topic>, m: Message, t: Topic)
    ensures Times(CallsFor(x, topics), m, t) == if x == m then Mult(topics, t) else 0
    decreases |topics|
  {
    if topics != [] {
      var n := |topics| - 1;
      CallsForTimes(x, topics[..n], m, t);
      assert CallsFor(x, topics)[..n] == CallsFor(x, topics[..n]);
    }
  }

  /**
  How often the loop produces one occurrence of a message for a topic: once per message of its type
  and registration of the type in the topic.
  */
  function PerOccurrence(regs: seq<Registration>, msgs: seq<Message>, m: Message, t: Topic): nat {
    Occurrences(msgs, m.gotype) * Mult(TopicsOf(regs, m.gotype), t)
  }

  /**
  The calls for every message and topic: with k messages of its type in the list, each occurrence of
  a message is produced k times for each registration of its type in the topic.
  */
  lemma {:induction false} CallsPerPair(regs: seq<Registration>, msgs: seq<Message>, n: nat, m: Message, t: Topic)
    requires n <= |msgs|
    ensures Times(Calls(regs, msgs, n), m, t) == Copies(msgs, n, m) * PerOccurrence(regs, msgs, m, t)
  {
    if n > 0 {
      var x := msgs[n - 1];
      CallsPerPair(regs, msgs, n - 1, m, t);
      TimesConcat(Calls(regs, msgs, n - 1), Block(regs, msgs, x), m, t);
      BlockTimes(regs, msgs, x, m, t);
      if x == m { OneMore(Copies(msgs, n - 1, m), PerOccurrence(regs, msgs, m, t)); }
    }
  }

  lemma BlockTimes(regs: seq<Registration>, msgs: seq<Message>, x: Message, m: Message, t: Topic)
    ensures Times(Block(regs, msgs, x), m, t) == if x == m then PerOccurrence(regs, msgs, m, t) else 0
  {
    CallsForTimes(x, Repeat(TopicsOf(regs, x.gotype), Occurrences(msgs, x.gotype)), m, t);
    RepeatMult(TopicsOf(regs, m.gotype), Occurrences(msgs, m.gotype), t);
  }

  lemma OneMore(k: nat, x: nat)
    ensures (k + 1) * x == k * x + x
  {
  }

  // ---- exactly once

  predicate IsRegistration(r: Registration, g: GoType, t: Topic) {
    r.schema.gotype == g && r.topic == t
  }

  /** How often a type is registered in a topic. */
  function RegCount(regs: seq<Registration>, g: GoType, t: Topic): nat {
    if regs == [] then 0
    else
      var n := |regs| - 1;
      RegCount(regs[..n], g, t) + if IsRegistration(regs[n], g, t) then 1 else 0
  }

  lemma {:induction false} MultIsRegCount(regs: seq<Registration>, g: GoType, t: Topic)
    ensures Mult(TopicsOf(regs, g), t) == RegCount(regs, g, t)
    decreases |regs|
  {
    if regs != [] {
      var n := |regs| - 1;
      MultIsRegCount(regs[..n], g, t);
      if regs[n].schema.gotype == g {
        MultConcat(TopicsOf(regs[..n], g), [regs[n].topic], t);
        assert [regs[n].topic][..0] == [];
      } else {
        assert TopicsOf(regs, g) == TopicsOf(regs[..n], g);
      }
    }
  }

  lemma {:induction false} RegCountPositive(regs: seq<Registration>, g: GoType, t: Topic)
    ensures RegCount(regs, g, t) > 0 <==> exists a :: 0 <= a < |regs| && IsRegistration(regs[a], g, t)
    decreases |regs|
  {
    if regs != [] {
      var n := |regs| - 1;
      RegCountPositive(regs[..n], g, t);
      if a :| 0 <= a < n && IsRegistration(regs[..n][a], g, t) { assert IsRegistration(regs[a], g, t); }
      if a :| 0 <= a < |regs| && IsRegistration(regs[a], g, t) { assert a < n ==> IsRegistration(regs[..n][a], g, t); }
    }
  }

  ghost predicate RegisteredTwice(regs: seq<Registration>, g: GoType, t: Topic) {
    exists a, b :: 0 <= a < b < |regs| && IsRegistration(regs[a], g, t) && IsRegistration(regs[b], g, t)
  }

  lemma {:induction false} TwiceIffCount(regs: seq<Registration>, g: GoType, t: Topic)
    ensures RegisteredTwice(regs, g, t) <==> RegCount(regs, g, t) > 1
    decreases |regs|
  {
    if regs != [] {
      var n := |regs| - 1;
      var front := regs[..n];
      TwiceIffCount(front, g, t);
      RegCountPositive(front, g, t);
      if RegisteredTwice(front, g, t) {
        var a, b :| 0 <= a < b < n && IsRegistration(front[a], g, t) && IsRegistration(front[b], g, t);
        assert IsRegistration(regs[a], g, t) && IsRegistration(regs[b], g, t);
      }
      if RegisteredTwice(regs, g, t) {
        var a, b :| 0 <= a < b < |regs| && IsRegistration(regs[a], g, t) && IsRegistration(regs[b], g, t);
        assert IsRegistration(front[a], g, t) && (b < n ==> IsRegistration(front[b], g, t));
      }
      if IsRegistration(regs[n], g, t) && RegCount(front, g, t) > 0 {
        var a :| 0 <= a < n && IsRegistration(front[a], g, t);
        assert IsRegistration(regs[a], g, t);
      }
    }
  }

  ghost predicate TypesDiffer(msgs: seq<Message>) {
    forall i, j :: 0 <= i < j < |msgs| ==> msgs[i].gotype != msgs[j].gotype
  }

  /**
  No type of the list is registered twice in one topic (the source refuses only a second registration
  of the same name).
  */
  ghost predicate RegisteredOnce(regs: seq<Registration>, msgs: seq<Message>) {
    forall i, t: Topic :: 0 <= i < |msgs| ==> !RegisteredTwice(regs, msgs[i].gotype, t)
  }

  ghost predicate ProducedOnce(regs: seq<Registration>, msgs: seq<Message>, i: nat, t: Topic)
    requires i < |msgs|
  {
    t in TopicsOf(regs, msgs[i].gotype) ==> Times(Calls(regs, msgs, |msgs|), msgs[i], t) == 1
  }

  lemma {:induction false} CopiesPositive(msgs: seq<Message>, n: nat, i: nat)
    requires i < n <= |msgs|
    ensures Copies(msgs, n, msgs[i]) >= 1
  {
    if i < n - 1 { CopiesPositive(msgs, n - 1, i); }
  }

  lemma {:induction false} CopiesBounded(msgs: seq<Message>, n: nat, m: Message)
    requires n <= |msgs|
    ensures Copies(msgs, n, m) <= Occurrences(msgs[..n], m.gotype)
  {
    if n > 0 {
      CopiesBounded(msgs, n - 1, m);
      assert msgs[..n][..n - 1] == msgs[..n - 1];
    }
  }

  lemma ProductIsOne(a: nat, b: nat, c: nat)
    requires a >= 1 && b >= 1 && c >= 1 && a <= b
    ensures a * (b * c) == 1 <==> b == 1 && c == 1
  {
    if b == 1 && c == 1 {
      assert b * c == 1;
    } else {
      assert b * c >= 2 by { if b >= 2 { assert b * c >= 2 * c; } else { assert b * c == c; } }
      assert a * (b * c) >= b * c;
    }
  }

  lemma ProducedOnceIff(regs: seq<Registration>, msgs: seq<Message>, i: nat, t: Topic)
    requires i < |msgs| && t in TopicsOf(regs, msgs[i].gotype)
    ensures ProducedOnce(regs, msgs, i, t) <==>
            Occurrences(msgs, msgs[i].gotype) == 1 && !RegisteredTwice(regs, msgs[i].gotype, t)
  {
    var m, n := msgs[i], |msgs|;
    CallsPerPair(regs, msgs, n, m, t);
    CopiesPositive(msgs, n, i);
    CopiesBounded(msgs, n, m);
    assert msgs[..n] == msgs;
    OccursInList(msgs, i);
    MultIsRegCount(regs, m.gotype, t);
    TwiceIffCount(regs, m.gotype, t);
    RegCountPositive(regs, m.gotype, t);
    TopicsOfIn(regs, m.gotype, t);
    if a :| 0 <= a < |regs| && regs[a].schema.gotype == m.gotype && regs[a].topic == t {
      assert IsRegistration(regs[a], m.gotype, t);
    }
    ProductIsOne(Copies(msgs, n, m), Occurrences(msgs, m.gotype), Mult(TopicsOf(regs, m.gotype), t));
  }

  /**
  Every message of the list is produced exactly once for every topic of its type if and only if no
  two messages have the same type and none of their types is registered twice in one topic.
  */
  lemma OncePerPairIff(regs: seq<Registration>, msgs: seq<Message>)
    requires AllKnown(regs, msgs)
    ensures (forall i: nat, t: Topic :: i < |msgs| ==> ProducedOnce(regs, msgs, i, t)) <==>
            TypesDiffer(msgs) && RegisteredOnce(regs, msgs)
  {
    if TypesDiffer(msgs) && RegisteredOnce(regs, msgs) {
      forall i: nat, t: Topic | i < |msgs| ensures ProducedOnce(regs, msgs, i, t) {
        OnlyOccurrence(msgs, i);
        if t in TopicsOf(regs, msgs[i].gotype) { ProducedOnceIff(regs, msgs, i, t); }
      }
    }
    if forall i: nat, t: Topic :: i < |msgs| ==> ProducedOnce(regs, msgs, i, t) {
      forall i: nat, t: Topic | i < |msgs| ensures !RegisteredTwice(regs, msgs[i].gotype, t) {
        OnceMeans(regs, msgs, i, t);
      }
      forall i: nat, j: nat | i < j < |msgs| ensures msgs[i].gotype != msgs[j].gotype {
        OnceMeans(regs, msgs, i, 0);
        OnlyOccurrence(msgs, i);
      }
    }
  }

  lemma OnceMeans(regs: seq<Registration>, msgs: seq<Message>, i: nat, t: Topic)
    requires AllKnown(regs, msgs) && i < |msgs| && forall t: Topic :: ProducedOnce(regs, msgs, i, t)
    ensures Occurrences(msgs, msgs[i].gotype) == 1 && !RegisteredTwice(regs, msgs[i].gotype, t)
  {
    var g := msgs[i].gotype;
    ProducedOnceIff(regs, msgs, i, TopicsOf(regs, g)[0]);
    if RegisteredTwice(regs, g, t) {
      TopicsOfIn(regs, g, t);
      ProducedOnceIff(regs, msgs, i, t);
    }
  }

  /** Where a type always reports the same name, registration itself keeps it from being registered twice in a topic. */
  lemma OneNamePerType(names: map<Topic, set<string>>, regs: seq<Registration>, msgs: seq<Message>)
    requires NamesMatch(names, regs)
    requires forall a, b :: 0 <= a < b < |regs| && regs[a].schema.gotype == regs[b].schema.gotype ==>
             regs[a].schema.name == regs[b].schema.name
    ensures RegisteredOnce(regs, msgs)
  {
  }

  /**
  A type that reports two names can be registered twice in a topic, and a single message of it is then
  produced twice.
  */
  lemma {:induction false} TwoNamesProduceTwice(g: GoType, t: Topic, m: Message)
    requires m.gotype == g
    ensures var regs := [Registration(t, Schema(g, "a")), Registration(t, Schema(g, "b"))];
            !HasName(regs[..1], t, "b") && Times(Calls(regs, [m], 1), m, t) == 2
  {
    var regs := [Registration(t, Schema(g, "a")), Registration(t, Schema(g, "b"))];
    CallsPerPair(regs, [m], 1, m, t);
    MultIsRegCount(regs, g, t);
    assert regs[..1][..0] == [] && regs[..1][0] == regs[0];
    assert RegCount(regs[..1], g, t) == 1 && RegCount(regs, g, t) == 2;
    assert [m][..0] == [];
    assert Occurrences([m], g) == 1 && Copies([m], 1, m) == 1;
  }

  lemma {:induction false} OnlyOccurrence(msgs: seq<Message>, i: nat)
    requires i < |msgs|
    ensures Occurrences(msgs, msgs[i].gotype) == 1 <==>
            forall j :: 0 <= j < |msgs| && j != i ==> msgs[i].gotype != msgs[j].gotype
    decreases |msgs|
  {
    var n, front := |msgs| - 1, msgs[..|msgs| - 1];
    if i < n {
      OnlyOccurrence(front, i);
      OccursInList(front, i);
      assert forall j :: 0 <= j < n ==> front[j] == msgs[j];
    } else {
      NoOccurrence(front, msgs[n].gotype);
      assert forall j :: 0 <= j < n ==> front[j] == msgs[j];
    }
  }

  lemma {:induction false} NoOccurrence(msgs: seq<Message>, g: GoType)
    ensures Occurrences(msgs, g) == 0 <==> forall j :: 0 <= j < |msgs| ==> msgs[j].gotype != g
    decreases |msgs|
  {
    if msgs != [] {
      var n := |msgs| - 1;
      NoOccurrence(msgs[..n], g);
      assert forall j :: 0 <= j < n ==> msgs[..n][j] == msgs[j];
    }
  }
}
