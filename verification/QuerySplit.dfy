/**
How the text of a migration is cut into queries: at every semicolon that ends a line, with blanks
trimmed and blank pieces dropped.
*/
module QuerySplit {

  const SEPARATOR := ";\n"

  /** White space as Go's unicode package defines it. */
  predicate IsSpace(c: char) {
    || c in {'\t', '\n', '\U{0B}', '\U{0C}', '\r', ' ', '\U{85}', '\U{A0}', '\U{1680}', '\U{2028}', '\U{2029}',
        '\U{202F}', '\U{205F}', '\U{3000}'}
    || '\U{2000}' <= c <= '\U{200A}'
  }

  function TrimLeft(s: string): string {
    if s != "" && IsSpace(s[0]) then TrimLeft(s[1..]) else s
  }

  function TrimRight(s: string): string {
    if s != "" && IsSpace(s[|s| - 1]) then TrimRight(s[..|s| - 1]) else s
  }

  function Trim(s: string): string {
    TrimRight(TrimLeft(s))
  }

  ghost predicate Trimmed(s: string) {
    s != "" ==> !IsSpace(s[0]) && !IsSpace(s[|s| - 1])
  }

  predicate SeparatorAt(s: string, i: int) {
    0 <= i && i + 2 <= |s| && s[i..i + 2] == SEPARATOR
  }

  /** The position of the first separator at i or later, or the length of s. */
  function FirstSeparator(s: string, i: nat): (r: nat)
    requires i <= |s|
    ensures i <= r <= |s| && (r < |s| ==> SeparatorAt(s, r))
    ensures forall k :: i <= k < r ==> !SeparatorAt(s, k)
    decreases |s| - i
  {
    if i == |s| || SeparatorAt(s, i) then i else FirstSeparator(s, i + 1)
  }

  function Split(s: string): seq<string>
    decreases |s|
  {
    var i := FirstSeparator(s, 0);
    if i == |s| then [s] else [s[..i]] + Split(s[i + 2..])
  }

  function Join(pieces: seq<string>): string {
    if pieces == [] then ""
    else if |pieces| == 1 then pieces[0]
    else pieces[0] + SEPARATOR + Join(pieces[1..])
  }

  /** The pieces that are not blank, trimmed, in order. */
  function NonBlank(pieces: seq<string>): seq<string> {
    if pieces == [] then []
    else
      var q := Trim(pieces[|pieces| - 1]);
      NonBlank(pieces[..|pieces| - 1]) + if q != "" then [q] else []
  }

  function Queries(sql: string): seq<string> {
    NonBlank(Split(sql))
  }

  method SplitIntoQueries(sql: string) returns (result: seq<string>)
    ensures result == Queries(sql) && AreQueriesOf(Split(sql), result)
  {
    var queries := Split(sql);
    result := [];
    for i := 0 to |queries|
      invariant result == NonBlank(queries[..i])
    {
      assert queries[..i + 1][..i] == queries[..i];
      var query := Trim(queries[i]);
      if query != "" {
        result := result + [query];
      }
    }
    assert queries[..|queries|] == queries;
    NonBlankAreQueries(queries);
  }

  // ------------------------------------------------------------------ what the queries are

  predicate AllSpace(s: string) {
    forall i :: 0 <= i < |s| ==> IsSpace(s[i])
  }

  /** q is s without its leading and trailing white space. */
  ghost predicate IsTrimOf(q: string, s: string) {
    Trimmed(q) && exists left: string, right: string :: Surrounds(left, q, right, s)
  }

  predicate Surrounds(left: string, q: string, right: string, s: string) {
    s == left + q + right && AllSpace(left) && AllSpace(right)
  }

  /** These are the places of all pieces that are not white space alone, in order. */
  ghost predicate ArePlaces(pieces: seq<string>, places: seq<nat>) {
    && (forall k :: 0 <= k < |places| ==> places[k] < |pieces|)
    && (forall j, k :: 0 <= j < k < |places| ==> places[j] < places[k])
    && (forall i: nat :: i < |pieces| ==> (i in places <==> !AllSpace(pieces[i])))
  }

  ghost predicate AreTrims(pieces: seq<string>, places: seq<nat>, result: seq<string>)
    requires forall k :: 0 <= k < |places| ==> places[k] < |pieces|
  {
    |places| == |result| && forall k :: 0 <= k < |places| ==> IsTrimOf(result[k], pieces[places[k]])
  }

  /** One query for each piece that is not white space alone, in order: the piece without white space around it. */
  ghost predicate AreQueriesOf(pieces: seq<string>, result: seq<string>) {
    exists places: seq<nat> :: ArePlaces(pieces, places) && AreTrims(pieces, places, result)
  }

  lemma {:induction false} TrimLeftRest(s: string) returns (left: string)
    ensures s == left + TrimLeft(s) && AllSpace(left)
  {
    if s != "" && IsSpace(s[0]) {
      var rest := TrimLeftRest(s[1..]);
      left := [s[0]] + rest;
    } else {
      left := "";
    }
  }

  lemma {:induction false} TrimRightRest(s: string) returns (right: string)
    ensures s == TrimRight(s) + right && AllSpace(right)
  {
    if s != "" && IsSpace(s[|s| - 1]) {
      var rest := TrimRightRest(s[..|s| - 1]);
      right := rest + [s[|s| - 1]];
    } else {
      right := "";
    }
  }

  /** Trimming takes off the white space around a text and nothing else; nothing is left exactly of white space. */
  lemma TrimIsTrim(s: string)
    ensures IsTrimOf(Trim(s), s)
    ensures Trim(s) == "" <==> AllSpace(s)
  {
    var left := TrimLeftRest(s);
    var right := TrimRightRest(TrimLeft(s));
    TrimTrims(s);
    assert s == left + Trim(s) + right;
    assert Surrounds(left, Trim(s), right, s);
    if Trim(s) != "" { assert s[|left|] == Trim(s)[0]; }
  }

  lemma {:induction false} NonBlankAreQueries(pieces: seq<string>)
    ensures AreQueriesOf(pieces, NonBlank(pieces))
    decreases |pieces|
  {
    if pieces == [] {
      var none: seq<nat> := [];
      assert ArePlaces(pieces, none) && AreTrims(pieces, none, []);
    } else {
      var n := |pieces| - 1;
      var front := pieces[..n];
      NonBlankAreQueries(front);
      var places: seq<nat> :| ArePlaces(front, places) && AreTrims(front, places, NonBlank(front));
      TrimIsTrim(pieces[n]);
      var more := if Trim(pieces[n]) != "" then places + [n] else places;
      OnePlaceMore(pieces, places, more);
      OneTrimMore(pieces, places, more, NonBlank(front), Trim(pieces[n]));
    }
  }

  lemma OneTrimMore(pieces: seq<string>, places: seq<nat>, more: seq<nat>, queries: seq<string>, q: string)
    requires pieces != [] && IsTrimOf(q, pieces[|pieces| - 1])
    requires (forall k :: 0 <= k < |places| ==> places[k] < |pieces| - 1) &&
             AreTrims(pieces[..|pieces| - 1], places, queries)
    requires more == if q != "" then places + [|pieces| - 1] else places
    ensures AreTrims(pieces, more, if q != "" then queries + [q] else queries)
  {
    var result := if q != "" then queries + [q] else queries;
    forall k | 0 <= k < |more| ensures IsTrimOf(result[k], pieces[more[k]]) {
      if k < |places| { assert IsTrimOf(queries[k], pieces[..|pieces| - 1][places[k]]); }
    }
  }

  lemma OnePlaceMore(pieces: seq<string>, places: seq<nat>, more: seq<nat>)
    requires pieces != [] && ArePlaces(pieces[..|pieces| - 1], places)
    requires more == if AllSpace(pieces[|pieces| - 1]) then places else places + [|pieces| - 1]
    ensures ArePlaces(pieces, more)
  {
    var n := |pieces| - 1;
    forall i: nat | i < |pieces| ensures i in more <==> !AllSpace(pieces[i]) {
      if i < n { assert pieces[..n][i] == pieces[i]; }
    }
  }

  // ------------------------------------------------------------------ nothing is lost, nothing is blank

  /** Splitting cuts at separators and nowhere else: joining the pieces gives the text back. */
  lemma {:induction false} JoinAfterSplit(s: string)
    ensures Split(s) != [] && Join(Split(s)) == s
    decreases |s|
  {
    var i := FirstSeparator(s, 0);
    if i < |s| {
      var rest := Split(s[i + 2..]);
      JoinAfterSplit(s[i + 2..]);
      assert Split(s)[1..] == rest;
      assert s == s[..i] + s[i..i + 2] + s[i + 2..];
    }
  }

  /** No piece contains a separator. */
  lemma {:induction false} PiecesHaveNoSeparator(s: string, p: nat, k: int)
    requires p < |Split(s)|
    ensures !SeparatorAt(Split(s)[p], k)
    decreases |s|
  {
    var i := FirstSeparator(s, 0);
    if i < |s| {
      if p > 0 {
        PiecesHaveNoSeparator(s[i + 2..], p - 1, k);
      } else if SeparatorAt(s[..i], k) {
        assert s[..i][k..k + 2] == s[k..k + 2];
        assert SeparatorAt(s, k);
      }
    }
  }

  /** The pieces of a text: joined with separators they give it back, and none contains a separator. */
  ghost predicate ArePieces(s: string, pieces: seq<string>) {
    && pieces != [] && Join(pieces) == s
    && forall p, k :: 0 <= p < |pieces| ==> !SeparatorAt(pieces[p], k)
  }

  /** The queries of a text are its pieces that are not white space alone, in order, without white space around them. */
  lemma TextIsItsQueries(sql: string)
    ensures exists pieces: seq<string> :: ArePieces(sql, pieces) && AreQueriesOf(pieces, Queries(sql))
  {
    var pieces := Split(sql);
    JoinAfterSplit(sql);
    forall p, k | 0 <= p < |pieces| ensures !SeparatorAt(pieces[p], k) { PiecesHaveNoSeparator(sql, p, k); }
    NonBlankAreQueries(pieces);
    assert ArePieces(sql, pieces);
  }

  lemma {:induction false} TrimRightTrims(s: string)
    ensures TrimRight(s) <= s && (TrimRight(s) != "" ==> !IsSpace(TrimRight(s)[|TrimRight(s)| - 1]))
  {
    if s != "" && IsSpace(s[|s| - 1]) { TrimRightTrims(s[..|s| - 1]); }
  }

  lemma {:induction false} TrimLeftTrims(s: string)
    ensures TrimLeft(s) != "" ==> !IsSpace(TrimLeft(s)[0])
  {
    if s != "" && IsSpace(s[0]) { TrimLeftTrims(s[1..]); }
  }

  lemma TrimTrims(s: string)
    ensures Trimmed(Trim(s))
  {
    TrimLeftTrims(s);
    TrimRightTrims(TrimLeft(s));
  }

  /** Every query is trimmed and not blank. */
  lemma {:induction false} QueriesAreNotBlank(pieces: seq<string>, i: nat)
    requires i < |NonBlank(pieces)|
    ensures NonBlank(pieces)[i] != "" && Trimmed(NonBlank(pieces)[i])
    decreases |pieces|
  {
    var n := |pieces| - 1;
    if i < |NonBlank(pieces[..n])| {
      QueriesAreNotBlank(pieces[..n], i);
    } else {
      TrimTrims(pieces[n]);
    }
  }

  lemma {:induction false} TrimKeepsLast(s: string)
    requires s != "" && !IsSpace(s[|s| - 1])
    ensures Trim(s) != ""
    decreases |s|
  {
    if IsSpace(s[0]) {
      assert s[1..][|s| - 2] == s[|s| - 1];
      TrimKeepsLast(s[1..]);
    }
  }

  lemma {:induction false} LastPiece(s: string)
    requires s != "" && s[|s| - 1] != '\n'
    ensures var p := Split(s); p != [] && p[|p| - 1] != "" && p[|p| - 1][|p[|p| - 1]| - 1] == s[|s| - 1]
    decreases |s|
  {
    var i := FirstSeparator(s, 0);
    if i < |s| {
      assert s[i..i + 2][1] == '\n';
      LastPiece(s[i + 2..]);
    }
  }

  /** A migration whose text is not blank has at least one query to execute. */
  lemma TextHasQuery(sql: string)
    requires Trim(sql) != ""
    ensures Queries(Trim(sql)) != []
  {
    var s := Trim(sql);
    TrimTrims(sql);
    LastPiece(s);
    var p := Split(s);
    TrimKeepsLast(p[|p| - 1]);
  }
}
