/**
 The conversation sidebar: the list handler's sort, keyset scan and search, and what a client
 that pages through it sees while conversations keep being created and written to.
 */
module ConversationPaging {
  import opened Basics
  import opened Text
  import opened SessionStore
  import opened CursorCodec

  const DefaultLimit := 50
  const MaxLimit := 200

  function EffectiveLimit(limit: int): (n: nat)
    ensures 1 <= limit <= 200 ==> n == limit
    ensures limit <= 0 ==> n == 50
    ensures limit > 200 ==> n == 200
  {
    if limit <= 0 then DefaultLimit else if limit < MaxLimit then limit else MaxLimit
  }

  /** A stored name that is a title and not the minted placeholder, else "". */
  function MeaningfulName(name: string): string { if Trim(name) == "" || "Session " <= name then "" else name }

  predicate Contains(haystack: string, needle: string) {
    exists i | 0 <= i <= |haystack| - |needle| :: haystack[i..][..|needle|] == needle
  }

  predicate MatchesSearch(lower: string -> string, needle: string, name: string, firstInbound: string) {
    needle == ""
    || (MeaningfulName(name) != "" && Contains(lower(MeaningfulName(name)), lower(needle)))
    || (firstInbound != "" && Contains(lower(firstInbound), lower(needle)))
  }

  /** Which rows a search keeps. Nothing about paging depends on how it decides. */
  type Search = Summary -> bool

  /** The search the handler runs; `lower` is Go's lower-casing. The in-memory store keeps no names. */
  function Matching(lower: string -> string, needle: string): Search {
    (row: Summary) => MatchesSearch(lower, needle, "", row.firstInbound)
  }

  function KeyOf(row: Summary): Key { Key(row.updatedAt, row.conversation) }

  /** Row b belongs after row a. */
  predicate Before(a: Summary, b: Summary) { Precedes(KeyOf(a), b.updatedAt, b.conversation) }

  ghost predicate Ordered(rows: seq<Summary>) { forall i, j | 0 <= i < j < |rows| :: Before(rows[i], rows[j]) }

  /** The row is older than the key, or as old with the smaller id. */
  ghost predicate Later(k: Key, row: Summary) {
    row.updatedAt < k.updatedAt || (row.updatedAt == k.updatedAt && SmallerText(row.conversation, k.id))
  }

  lemma BeforeExact(k: Key, row: Summary)
    ensures Precedes(k, row.updatedAt, row.conversation) <==> Later(k, row)
  {
    LexExact(row.conversation, k.id);
  }

  /** Exactly the rows of a map, newest first. */
  ghost predicate Sorts(rows: seq<Summary>, m: map<ConversationId, Summary>) {
    Ordered(rows) && forall row :: row in rows <==> row.conversation in m && m[row.conversation] == row
  }

  /** The row lies strictly after the cursor; every row does when there is none. */
  predicate Beyond(after: Option<Key>, row: Summary) {
    after.None? || Precedes(after.value, row.updatedAt, row.conversation)
  }

  predicate Wanted(after: Option<Key>, want: Search, row: Summary) { Beyond(after, row) && want(row) }

  /** The rows still to be shown. */
  function Rest(m: map<ConversationId, Summary>, after: Option<Key>, want: Search): map<ConversationId, Summary> {
    map c | c in m && Wanted(after, want, m[c]) :: m[c]
  }

  ghost predicate Keyed(m: map<ConversationId, Summary>) { forall c | c in m :: m[c].conversation == c }

  function Last(rows: seq<Summary>): Summary
    requires rows != []
  {
    rows[|rows| - 1]
  }

  /** What one page of the rows that are left is, without saying how it is found. */
  ghost predicate Cuts(rest: map<ConversationId, Summary>, limit: nat, rows: seq<Summary>, hasMore: bool) {
    && Ordered(rows) && |rows| <= limit
    && (forall row | row in rows :: row.conversation in rest && rest[row.conversation] == row)
    && (!hasMore ==> forall c | c in rest :: rest[c] in rows)
    && (hasMore ==> |rows| == limit > 0 && forall c | c in rest :: rest[c] in rows || Before(Last(rows), rest[c]))
    && (hasMore ==> exists c :: c in rest && rest[c] !in rows)
  }

  ghost predicate IsPage(m: map<ConversationId, Summary>, after: Option<Key>, want: Search, limit: nat, rows: seq<Summary>, hasMore: bool) {
    Cuts(Rest(m, after, want), limit, rows, hasMore)
  }

  lemma BeforeIsAnOrder(a: Summary, b: Summary, c: Summary)
    ensures !Before(a, a)
    ensures Before(a, b) && Before(b, c) ==> Before(a, c)
    ensures Before(a, b) || Before(b, a) || KeyOf(a) == KeyOf(b)
  {
    LexIrreflexive(a.conversation);
    LexTotal(a.conversation, b.conversation);
    if LexLess(b.conversation, a.conversation) && LexLess(c.conversation, b.conversation) {
      LexTransitive(c.conversation, b.conversation, a.conversation);
    }
  }

  // ---------------------------------------------------------------- the handler

  function Insert(rows: seq<Summary>, row: Summary): seq<Summary> {
    if rows == [] then [row]
    else if Before(row, rows[0]) then [row] + rows
    else [rows[0]] + Insert(rows[1..], row)
  }

  lemma {:induction false} InsertKeeps(rows: seq<Summary>, row: Summary)
    ensures |Insert(rows, row)| == |rows| + 1
    ensures forall x :: x in Insert(rows, row) <==> x in rows || x == row
  {
    if rows != [] && !Before(row, rows[0]) {
      InsertKeeps(rows[1..], row);
      assert rows == [rows[0]] + rows[1..];
    }
  }

  lemma {:induction false} InsertOrdered(rows: seq<Summary>, row: Summary)
    requires Ordered(rows) && forall x | x in rows :: x.conversation != row.conversation
    ensures Ordered(Insert(rows, row))
  {
    if rows != [] {
      if Before(row, rows[0]) {
        forall x | x in rows ensures Before(row, x) { BeforeIsAnOrder(row, rows[0], x); }
      } else {
        InsertOrdered(rows[1..], row);
        InsertKeeps(rows[1..], row);
        BeforeIsAnOrder(rows[0], row, row);
        assert rows[0] in rows;
        assert forall x | x in Insert(rows[1..], row) :: Before(rows[0], x);
      }
    }
  }

  ghost predicate SameRows(a: seq<Summary>, b: seq<Summary>) { forall x :: x in a <==> x in b }

  lemma InsertStep(rows: seq<Summary>, i: nat, sorted: seq<Summary>)
    requires i < |rows| && Distinct(rows) && Ordered(sorted) && SameRows(sorted, rows[..i])
    ensures Ordered(Insert(sorted, rows[i])) && SameRows(Insert(sorted, rows[i]), rows[..i + 1])
  {
    forall x | x in sorted ensures x.conversation != rows[i].conversation { var j :| 0 <= j < i && rows[j] == x; }
    InsertOrdered(sorted, rows[i]);
    InsertKeeps(sorted, rows[i]);
    assert rows[..i + 1] == rows[..i] + [rows[i]];
  }

  /** Newest first, ties by id descending. */
  method SortNewestFirst(rows: seq<Summary>, ghost m: map<ConversationId, Summary>) returns (sorted: seq<Summary>)
    requires Lists(rows, m)
    ensures Sorts(sorted, m)
    ensures forall i, j | 0 <= i < j < |sorted| :: Later(KeyOf(sorted[i]), sorted[j])
  {
    sorted := [];
    for i := 0 to |rows|
      invariant Ordered(sorted) && SameRows(sorted, rows[..i])
    {
      InsertStep(rows, i, sorted);
      sorted := Insert(sorted, rows[i]);
    }
    assert rows[..|rows|] == rows;
    forall i, j | 0 <= i < j < |sorted| ensures Later(KeyOf(sorted[i]), sorted[j]) { BeforeExact(KeyOf(sorted[i]), sorted[j]); }
  }

  /** Keyset and search in page order, stopping at one row past the page. */
  method Scan(sorted: seq<Summary>, ghost m: map<ConversationId, Summary>, after: Option<Key>, want: Search, limit: nat)
    returns (rows: seq<Summary>, hasMore: bool)
    requires 0 < limit && Keyed(m) && Sorts(sorted, m)
    ensures IsPage(m, after, want, limit, rows, hasMore)
  {
    var page: seq<Summary> := [];
    var i := 0;
    while i < |sorted| && |page| <= limit
      invariant 0 <= i <= |sorted| && |page| <= limit + 1
      invariant Ordered(page)
      invariant forall x :: x in page <==> x in sorted[..i] && Wanted(after, want, x)
      invariant forall x, j | x in page && i <= j < |sorted| :: Before(x, sorted[j])
    {
      var row := sorted[i];
      forall k | 0 <= k < |page| ensures Before(page[k], row) {
        assert page[k] in page;
        assert Before(page[k], sorted[i]);
      }
      if Wanted(after, want, row) { page := page + [row]; }
      assert sorted[..i + 1] == sorted[..i] + [row];
      i := i + 1;
    }
    hasMore := |page| > limit;
    rows := if hasMore then page[..limit] else page;
    CutPage(sorted, m, after, want, limit, page, i);
  }

  /** What the scan has read is in the page if it is wanted, and the page comes before the rest. */
  lemma ReadSoFar(sorted: seq<Summary>, m: map<ConversationId, Summary>, after: Option<Key>, want: Search, page: seq<Summary>, i: nat)
    requires Keyed(m) && Sorts(sorted, m) && i <= |sorted|
    requires forall x :: x in page <==> x in sorted[..i] && Wanted(after, want, x)
    requires forall x, j | x in page && i <= j < |sorted| :: Before(x, sorted[j])
    ensures var rest := Rest(m, after, want);
            && (forall x | x in page :: x.conversation in rest && rest[x.conversation] == x)
            && (forall c | c in rest :: rest[c] in page || (i < |sorted| && forall x | x in page :: Before(x, rest[c])))
  {
    var rest := Rest(m, after, want);
    forall x | x in page ensures x.conversation in rest && rest[x.conversation] == x { assert x in sorted; }
    forall c | c in rest ensures rest[c] in page || (i < |sorted| && forall x | x in page :: Before(x, rest[c])) {
      assert rest[c] in sorted;
      var j :| 0 <= j < |sorted| && sorted[j] == rest[c];
      if j < i { assert sorted[..i][j] == rest[c]; }
    }
  }

  lemma CutPage(sorted: seq<Summary>, m: map<ConversationId, Summary>, after: Option<Key>, want: Search, limit: nat, page: seq<Summary>, i: nat)
    requires 0 < limit && Keyed(m) && Sorts(sorted, m) && Ordered(page) && i <= |sorted| && |page| <= limit + 1
    requires forall x :: x in page <==> x in sorted[..i] && Wanted(after, want, x)
    requires forall x, j | x in page && i <= j < |sorted| :: Before(x, sorted[j])
    requires i == |sorted| || |page| == limit + 1
    ensures IsPage(m, after, want, limit, if |page| > limit then page[..limit] else page, |page| > limit)
  {
    ReadSoFar(sorted, m, after, want, page, i);
    if |page| > limit { CutFullPage(Rest(m, after, want), limit, page); } else { CutLastPage(Rest(m, after, want), limit, page); }
  }

  lemma CutLastPage(rest: map<ConversationId, Summary>, limit: nat, page: seq<Summary>)
    requires Ordered(page) && |page| <= limit
    requires forall x | x in page :: x.conversation in rest && rest[x.conversation] == x
    requires forall c | c in rest :: rest[c] in page
    ensures Cuts(rest, limit, page, false)
  {}

  lemma CutFullPage(rest: map<ConversationId, Summary>, limit: nat, page: seq<Summary>)
    requires 0 < limit && Ordered(page) && |page| == limit + 1 && Keyed(rest)
    requires forall x | x in page :: x.conversation in rest && rest[x.conversation] == x
    requires forall c | c in rest :: rest[c] in page || forall x | x in page :: Before(x, rest[c])
    ensures Cuts(rest, limit, page[..limit], true)
  {
    var rows, extra := page[..limit], page[limit];
    forall c | c in rest ensures rest[c] in rows || Before(Last(rows), rest[c]) {
      assert page[limit - 1] in page;
      if rest[c] in page {
        var k :| 0 <= k < |page| && page[k] == rest[c];
        if k < limit { assert rows[k] == rest[c]; }
      }
    }
    assert extra in page;
    if extra in rows {
      var k :| 0 <= k < limit && rows[k] == extra;
      BeforeIsAnOrder(extra, extra, extra);
      assert false;
    }
  }

  /** The text answers the query: there is none, or it stands in the text once both are in lower case. */
  ghost predicate Answers(lower: string -> string, query: string, text: string) {
    Trim(query) == "" || (text != "" && Occurs(lower(Trim(query)), lower(text)))
  }

  lemma ContainsExact(haystack: string, needle: string)
    ensures Contains(haystack, needle) <==> Occurs(needle, haystack)
  {
    if Contains(haystack, needle) {
      var i :| 0 <= i <= |haystack| - |needle| && haystack[i..][..|needle|] == needle;
      assert IsSplit(haystack, haystack[..i], needle, haystack[i + |needle|..]) by {
        assert haystack[i..] == haystack[i..][..|needle|] + haystack[i..][|needle|..];
        assert haystack == haystack[..i] + haystack[i..];
      }
    }
    if Occurs(needle, haystack) {
      var pre, post :| IsSplit(haystack, pre, needle, post);
      assert haystack[|pre|..][..|needle|] == needle;
    }
  }

  /** A name is searched unless it is blank or the placeholder a session starts with. */
  ghost predicate IsTitle(name: string) { Trim(name) != "" && !exists rest :: name == "Session " + rest }

  /** A search finds what stands, case aside, in a row's title or in its first inbound text. */
  lemma SearchExactly(lower: string -> string, needle: string, name: string, text: string)
    ensures MatchesSearch(lower, needle, name, text) <==>
            || needle == ""
            || (IsTitle(name) && Occurs(lower(needle), lower(name)))
            || (text != "" && Occurs(lower(needle), lower(text)))
  {
    ContainsExact(lower(name), lower(needle));
    ContainsExact(lower(text), lower(needle));
    if "Session " <= name { assert name == "Session " + name[8..]; }
    if rest :| name == "Session " + rest { assert "Session " <= name; }
  }

  lemma MatchingExact(lower: string -> string, query: string, row: Summary)
    ensures Matching(lower, Trim(query))(row) <==> Answers(lower, query, row.firstInbound)
  {
    ContainsExact(lower(row.firstInbound), lower(Trim(query)));
  }

  /** The row lies beyond where the request continues from. */
  ghost predicate Onward(after: Option<Key>, row: Summary) { after.None? || Later(after.value, row) }

  ghost predicate Candidate(st: Store, sc: Scope, lower: string -> string, after: Option<Key>, query: string, row: Summary) {
    Describes(row, st) && MayList(st, sc, row.conversation) && Onward(after, row) && Answers(lower, query, row.firstInbound)
  }

  /** The page a request is answered with: candidates, newest first, and every candidate not on it comes after it. */
  ghost predicate RightPage(st: Store, sc: Scope, lower: string -> string, after: Option<Key>, query: string, rows: seq<Summary>, hasMore: bool) {
    && (forall row | row in rows :: Candidate(st, sc, lower, after, query, row))
    && (forall i, j | 0 <= i < j < |rows| :: Later(KeyOf(rows[i]), rows[j]))
    && (forall c | MayList(st, sc, c) && Candidate(st, sc, lower, after, query, SummaryOf(st, c)) ::
          SummaryOf(st, c) in rows || (hasMore && rows != [] && Later(KeyOf(Last(rows)), SummaryOf(st, c))))
    && (hasMore ==> exists c :: MayList(st, sc, c) && Candidate(st, sc, lower, after, query, SummaryOf(st, c)) && SummaryOf(st, c) !in rows)
  }

  /** The rows left for the handler's search are exactly the candidates. */
  lemma RestIsCandidates(st: Store, sc: Scope, lower: string -> string, after: Option<Key>, query: string, c: ConversationId)
    ensures var rest := Rest(Listing(st, sc), after, Matching(lower, Trim(query)));
            && (c in rest <==> MayList(st, sc, c) && Candidate(st, sc, lower, after, query, SummaryOf(st, c)))
            && (c in rest ==> rest[c] == SummaryOf(st, c))
  {
    if c in st.messages {
      var row := SummaryOf(st, c);
      FirstInboundExact(st.messages[c]);
      MatchingExact(lower, query, row);
      if after.Some? { BeforeExact(after.value, row); }
    }
  }

  lemma PageIsRight(st: Store, sc: Scope, lower: string -> string, after: Option<Key>, query: string, limit: nat, rows: seq<Summary>, hasMore: bool)
    requires IsPage(Listing(st, sc), after, Matching(lower, Trim(query)), limit, rows, hasMore)
    ensures RightPage(st, sc, lower, after, query, rows, hasMore)
  {
    var rest := Rest(Listing(st, sc), after, Matching(lower, Trim(query)));
    forall row | row in rows ensures Candidate(st, sc, lower, after, query, row) {
      RestIsCandidates(st, sc, lower, after, query, row.conversation);
    }
    forall i, j | 0 <= i < j < |rows| ensures Later(KeyOf(rows[i]), rows[j]) { BeforeExact(KeyOf(rows[i]), rows[j]); }
    forall c | MayList(st, sc, c) && Candidate(st, sc, lower, after, query, SummaryOf(st, c))
      ensures SummaryOf(st, c) in rows || (hasMore && rows != [] && Later(KeyOf(Last(rows)), SummaryOf(st, c)))
    {
      RestIsCandidates(st, sc, lower, after, query, c);
      if SummaryOf(st, c) !in rows { BeforeExact(KeyOf(Last(rows)), SummaryOf(st, c)); }
    }
    if hasMore {
      var c :| c in rest && rest[c] !in rows;
      RestIsCandidates(st, sc, lower, after, query, c);
    }
  }

  datatype ListReply = BadCursor | Page(rows: seq<Summary>, nextCursor: Option<string>, hasMore: bool)

  /** The position a request continues from: None is an undecodable cursor, Some(None) the first page. */
  function ReadCursor(cursor: string): Option<Option<Key>> {
    if Trim(cursor) == "" then Some(None)
    else
      var k := Decode(cursor);
      if k.None? then None else Some(k)
  }

  method HandleListConversations(store: InMemorySessionStore, sc: Scope, lower: string -> string, limit: int, cursor: string, query: string) returns (reply: ListReply)
    requires forall c | c in store.messages :: IsBytes(c)
    ensures reply.BadCursor? <==> ReadCursor(cursor).None?
    ensures reply.Page? ==>
              && IsPage(Listing(store.State(), sc), ReadCursor(cursor).value, Matching(lower, Trim(query)), EffectiveLimit(limit), reply.rows, reply.hasMore)
              && RightPage(store.State(), sc, lower, ReadCursor(cursor).value, query, reply.rows, reply.hasMore)
              && |reply.rows| <= EffectiveLimit(limit) && (reply.hasMore ==> |reply.rows| == EffectiveLimit(limit))
              && (forall row | row in reply.rows :: IsBytes(row.conversation))
              && reply.nextCursor == if reply.hasMore then Some(Encode(KeyOf(Last(reply.rows)))) else None
  {
    var after := ReadCursor(cursor);
    if after.None? { return BadCursor; }
    var found := store.ListConversations(sc);
    var sorted := SortNewestFirst(found, Listing(store.State(), sc));
    var rows, hasMore := Scan(sorted, Listing(store.State(), sc), after.value, Matching(lower, Trim(query)), EffectiveLimit(limit));
    var next := None;
    assert forall row | row in rows :: IsBytes(row.conversation);
    PageIsRight(store.State(), sc, lower, after.value, query, EffectiveLimit(limit), rows, hasMore);
    if hasMore {
      assert Last(rows) in rows;
      next := Some(Encode(KeyOf(Last(rows))));
    }
    reply := Page(rows, next, hasMore);
  }

  /** The cursor handed out names the row it was made from, so paging over the wire is paging in memory. */
  lemma CursorNamesItsRow(row: Summary)
    requires IsBytes(row.conversation)
    ensures ReadCursor(Encode(KeyOf(row))) == if Encodable(KeyOf(row)) then Some(Some(KeyOf(row))) else None
  {
    RoundTrip(KeyOf(row));
    EncodedIsTrimmed(Bytes(Raw(KeyOf(row))));
    assert Encode(KeyOf(row)) != "" by {
      var raw := Bytes(Raw(KeyOf(row)));
      assert |raw| > 0;
    }
  }

  // ---------------------------------------------------------------- paging while others write

  datatype Step = Write(op: Op) | Fetch(limit: int, rows: seq<Summary>, hasMore: bool)

  /** A client fetches page after page, each from where the last one ended, while anything happens to the store. */
  ghost predicate Traced(st: Store, sc: Scope, want: Search, after: Option<Key>, steps: seq<Step>)
    decreases |steps|
  {
    steps == [] ||
    match steps[0]
    case Write(op) => Traced(Apply(st, op), sc, want, after, steps[1..])
    case Fetch(limit, rows, hasMore) =>
      && IsPage(Listing(st, sc), after, want, EffectiveLimit(limit), rows, hasMore)
      && (if hasMore then Traced(st, sc, want, Some(KeyOf(Last(rows))), steps[1..]) else steps[1..] == [])
  }

  /** The client was told there is nothing more. */
  predicate Complete(steps: seq<Step>) { steps != [] && steps[|steps| - 1].Fetch? && !steps[|steps| - 1].hasMore }

  function Returned(steps: seq<Step>): seq<Summary> {
    if steps == [] then [] else (if steps[0].Fetch? then steps[0].rows else []) + Returned(steps[1..])
  }

  function Fetches(steps: seq<Step>): nat {
    if steps == [] then 0 else (if steps[0].Fetch? then 1 else 0) + Fetches(steps[1..])
  }

  /** The same, each page asked for with the cursor string the last reply carried. */
  ghost predicate WireTraced(st: Store, sc: Scope, want: Search, cursor: string, steps: seq<Step>)
    decreases |steps|
  {
    steps == [] ||
    match steps[0]
    case Write(op) => WireTraced(Apply(st, op), sc, want, cursor, steps[1..])
    case Fetch(limit, rows, hasMore) =>
      && ReadCursor(cursor).Some?
      && IsPage(Listing(st, sc), ReadCursor(cursor).value, want, EffectiveLimit(limit), rows, hasMore)
      && (if hasMore then IsBytes(Last(rows).conversation) && WireTraced(st, sc, want, Encode(KeyOf(Last(rows))), steps[1..])
          else steps[1..] == [])
  }

  /** The wire's run is a run in memory, and the other way round. */
  ghost predicate SameRun(st: Store, sc: Scope, want: Search, cursor: string, after: Option<Key>, steps: seq<Step>) {
    WireTraced(st, sc, want, cursor, steps) <==> Traced(st, sc, want, after, steps)
  }

  lemma SameRunWrite(st: Store, sc: Scope, want: Search, cursor: string, after: Option<Key>, steps: seq<Step>)
    requires steps != [] && steps[0].Write? && SameRun(Apply(st, steps[0].op), sc, want, cursor, after, steps[1..])
    ensures SameRun(st, sc, want, cursor, after, steps)
  {}

  lemma SameRunLastFetch(st: Store, sc: Scope, want: Search, cursor: string, after: Option<Key>, steps: seq<Step>)
    requires steps != [] && steps[0].Fetch? && ReadCursor(cursor) == Some(after) && (steps[0].hasMore ==> steps[0].rows == [])
    ensures SameRun(st, sc, want, cursor, after, steps)
  {}

  lemma SameRunFetch(st: Store, sc: Scope, want: Search, cursor: string, after: Option<Key>, steps: seq<Step>)
    requires steps != [] && steps[0].Fetch? && ReadCursor(cursor) == Some(after) && steps[0].hasMore && steps[0].rows != []
    requires var k := KeyOf(Last(steps[0].rows)); IsBytes(k.id) && SameRun(st, sc, want, Encode(k), Some(k), steps[1..])
    ensures SameRun(st, sc, want, cursor, after, steps)
  {}

  lemma LastIsReturned(steps: seq<Step>)
    requires steps != [] && steps[0].Fetch? && steps[0].rows != []
    ensures Last(steps[0].rows) in Returned(steps) && forall row | row in Returned(steps[1..]) :: row in Returned(steps)
  {
    assert Returned(steps)[|steps[0].rows| - 1] == Last(steps[0].rows);
  }

  /** Paging over the wire is paging in memory, so every property below holds of it. */
  lemma {:induction false} WireIsMemory(st: Store, sc: Scope, want: Search, cursor: string, after: Option<Key>, steps: seq<Step>)
    requires ReadCursor(cursor) == Some(after)
    requires forall row | row in Returned(steps) :: Encodable(KeyOf(row))
    ensures SameRun(st, sc, want, cursor, after, steps)
    decreases |steps|
  {
    if steps != [] {
      match steps[0]
      case Write(op) =>
        WireIsMemory(Apply(st, op), sc, want, cursor, after, steps[1..]);
        SameRunWrite(st, sc, want, cursor, after, steps);
      case Fetch(_, rows, hasMore) =>
        if hasMore && rows != [] {
          LastIsReturned(steps);
          CursorNamesItsRow(Last(rows));
          WireIsMemory(st, sc, want, Encode(KeyOf(Last(rows))), Some(KeyOf(Last(rows))), steps[1..]);
          SameRunFetch(st, sc, want, cursor, after, steps);
        } else {
          SameRunLastFetch(st, sc, want, cursor, after, steps);
        }
    }
  }

  predicate Touches(op: Op, c: ConversationId) { op.Append? && op.msg.conversation == c }

  /** The row of c, and who may see it, is the same in both stores. */
  ghost predicate SameRow(st: Store, st': Store, c: ConversationId) {
    && c in st.messages && c in st'.messages && st'.messages[c] == st.messages[c] && At(st'.updatedAt, c, 0) == At(st.updatedAt, c, 0)
    && Owner(st', c) == Owner(st, c) && Org(st', c) == Org(st, c)
  }

  lemma ResumeStays(st: Store, op: Op, c: ConversationId)
    requires op.Resume? && c in st.messages
    ensures SameRow(st, Apply(st, op), c)
  {
    if Fresh(st, op.m) && !Resumes(st, op.sc, op.conv) {
      assert SameRow(st, Opened(st, op.sc, op.m.conversation, Stamp(st, op.now)), c);
    }
  }

  /** An operation that does not write to a conversation leaves its row alone. */
  lemma UntouchedStays(st: Store, op: Op, c: ConversationId)
    requires c in st.messages && !Touches(op, c)
    ensures SameRow(st, Apply(st, op), c)
  {
    match op
    case Resume(_, _, _, _, _, _) => ResumeStays(st, op, c);
    case Append(msg, now) =>
    case _ =>
  }

  /** A conversation's stamp stays or becomes newer than every stamp before. */
  lemma StampOnlyRises(st: Store, op: Op, c: ConversationId)
    requires Inv(st)
    ensures var st' := Apply(st, op);
            c in st'.messages ==> (c in st.messages && At(st'.updatedAt, c, 0) == At(st.updatedAt, c, 0)) || At(st'.updatedAt, c, 0) > st.lastStamp
  {
    match op
    case Resume(_, _, _, _, _, _) =>
    case _ =>
  }

  /** The conversations strictly after a key. */
  ghost function BeyondIds(st: Store, k: Key): set<ConversationId> {
    set c | c in st.messages && Precedes(k, At(st.updatedAt, c, 0), c)
  }

  lemma BeyondNeverGrows(st: Store, op: Op, k: Key)
    requires Inv(st) && k.updatedAt <= st.lastStamp
    ensures BeyondIds(Apply(st, op), k) <= BeyondIds(st, k)
    ensures Inv(Apply(st, op)) && k.updatedAt <= Apply(st, op).lastStamp
  {
    ApplyKeepsInv(st, op);
    forall c | c in BeyondIds(Apply(st, op), k) ensures c in BeyondIds(st, k) { StampOnlyRises(st, op, c); }
  }

  ghost function IdsOf(rows: seq<Summary>): set<ConversationId> { set row | row in rows :: row.conversation }

  /** A page takes its rows out of what lies beyond the cursor, and the next cursor lies there too. */
  lemma PageTakesFromBeyond(st: Store, sc: Scope, want: Search, k: Key, limit: nat, rows: seq<Summary>, hasMore: bool)
    requires Inv(st) && IsPage(Listing(st, sc), Some(k), want, limit, rows, hasMore)
    ensures IdsOf(rows) <= BeyondIds(st, k)
  {}

  lemma CursorMoves(st: Store, sc: Scope, want: Search, after: Option<Key>, limit: nat, rows: seq<Summary>)
    requires Inv(st) && IsPage(Listing(st, sc), after, want, limit, rows, true)
    ensures var k' := KeyOf(Last(rows));
            && k'.updatedAt <= st.lastStamp
            && IdsOf(rows) !! BeyondIds(st, k')
            && (after.Some? ==> BeyondIds(st, k') <= BeyondIds(st, after.value))
  {
    var last := Last(rows);
    assert last in rows;
    forall row | row in rows ensures row.conversation !in BeyondIds(st, KeyOf(last)) {
      BeforeIsAnOrder(row, last, row);
    }
    if after.Some? {
      var pivot := Summary(after.value.id, after.value.updatedAt, 0, "");
      forall c | c in BeyondIds(st, KeyOf(last)) ensures c in BeyondIds(st, after.value) {
        BeforeIsAnOrder(pivot, last, Summary(c, At(st.updatedAt, c, 0), 0, ""));
      }
    }
  }

  /** Nothing is ever returned that was not beyond the cursor. */
  lemma {:induction false} OnlyFromBeyond(st: Store, sc: Scope, want: Search, k: Key, steps: seq<Step>)
    requires Inv(st) && k.updatedAt <= st.lastStamp && Traced(st, sc, want, Some(k), steps)
    ensures IdsOf(Returned(steps)) <= BeyondIds(st, k)
    decreases |steps|
  {
    if steps != [] {
      match steps[0]
      case Write(op) =>
        BeyondNeverGrows(st, op, k);
        OnlyFromBeyond(Apply(st, op), sc, want, k, steps[1..]);
      case Fetch(limit, rows, hasMore) =>
        PageTakesFromBeyond(st, sc, want, k, EffectiveLimit(limit), rows, hasMore);
        if hasMore {
          CursorMoves(st, sc, want, Some(k), EffectiveLimit(limit), rows);
          OnlyFromBeyond(st, sc, want, KeyOf(Last(rows)), steps[1..]);
        }
    }
  }

  ghost predicate Distinct(rows: seq<Summary>) {
    forall i, j | 0 <= i < j < |rows| :: rows[i].conversation != rows[j].conversation
  }

  lemma PageDistinct(m: map<ConversationId, Summary>, after: Option<Key>, want: Search, limit: nat, rows: seq<Summary>, hasMore: bool)
    requires IsPage(m, after, want, limit, rows, hasMore)
    ensures Distinct(rows)
  {
    forall i, j | 0 <= i < j < |rows| ensures rows[i].conversation != rows[j].conversation {
      if rows[i].conversation == rows[j].conversation {
        assert rows[i] in rows && rows[j] in rows;
        BeforeIsAnOrder(rows[i], rows[i], rows[i]);
        assert false;
      }
    }
  }

  lemma DistinctConcat(a: seq<Summary>, b: seq<Summary>)
    requires Distinct(a) && Distinct(b) && IdsOf(a) !! IdsOf(b)
    ensures Distinct(a + b)
  {
    forall i, j | 0 <= i < j < |a + b| ensures (a + b)[i].conversation != (a + b)[j].conversation {
      if i < |a| <= j {
        assert a[i] in a && b[j - |a|] in b;
        assert a[i].conversation in IdsOf(a) && b[j - |a|].conversation in IdsOf(b);
      }
    }
  }

  /** No conversation is returned twice, whatever happens between the pages. */
  lemma {:induction false} NeverTwice(st: Store, sc: Scope, want: Search, after: Option<Key>, steps: seq<Step>)
    requires Inv(st) && Traced(st, sc, want, after, steps)
    ensures Distinct(Returned(steps))
    decreases |steps|
  {
    if steps != [] {
      match steps[0]
      case Write(op) =>
        ApplyKeepsInv(st, op);
        NeverTwice(Apply(st, op), sc, want, after, steps[1..]);
      case Fetch(limit, rows, hasMore) =>
        PageDistinct(Listing(st, sc), after, want, EffectiveLimit(limit), rows, hasMore);
        if hasMore {
          var k := KeyOf(Last(rows));
          CursorMoves(st, sc, want, after, EffectiveLimit(limit), rows);
          OnlyFromBeyond(st, sc, want, k, steps[1..]);
          NeverTwice(st, sc, want, Some(k), steps[1..]);
          DistinctConcat(rows, Returned(steps[1..]));
        } else {
          assert Returned(steps) == rows;
        }
    }
  }

  /** The row of c is in the page, or waits beyond the next cursor. */
  lemma ReturnedOrWaiting(st: Store, sc: Scope, want: Search, after: Option<Key>, limit: nat, rows: seq<Summary>, hasMore: bool, c: ConversationId)
    requires IsPage(Listing(st, sc), after, want, limit, rows, hasMore)
    requires c in st.messages && Listable(st, sc, c) && Wanted(after, want, SummaryOf(st, c)) && SummaryOf(st, c) !in rows
    ensures hasMore && rows != [] && Wanted(Some(KeyOf(Last(rows))), want, SummaryOf(st, c))
  {
    var rest := Rest(Listing(st, sc), after, want);
    assert c in rest && rest[c] == SummaryOf(st, c);
  }

  /** None of the writes of a run touches c. */
  ghost predicate LeftAlone(steps: seq<Step>, c: ConversationId) {
    forall step | step in steps && step.Write? :: !Touches(step.op, c)
  }

  /** The row of c is still to come after the key. */
  ghost predicate Waits(st: Store, sc: Scope, want: Search, after: Option<Key>, c: ConversationId) {
    c in st.messages && Listable(st, sc, c) && Wanted(after, want, SummaryOf(st, c))
  }

  lemma RowStays(st: Store, op: Op, sc: Scope, want: Search, after: Option<Key>, c: ConversationId)
    requires Waits(st, sc, want, after, c) && !Touches(op, c)
    ensures Waits(Apply(st, op), sc, want, after, c) && SummaryOf(Apply(st, op), c) == SummaryOf(st, c)
  {
    UntouchedStays(st, op, c);
  }

  lemma RestLeftAlone(steps: seq<Step>, c: ConversationId)
    requires steps != [] && LeftAlone(steps, c)
    ensures LeftAlone(steps[1..], c) && (steps[0].Write? ==> !Touches(steps[0].op, c))
  {
    assert steps[0] in steps;
  }

  ghost predicate Comes(row: Summary, steps: seq<Step>) { row in Returned(steps) }

  lemma ComesLater(row: Summary, steps: seq<Step>)
    requires steps != [] && Comes(row, steps[1..])
    ensures Comes(row, steps)
  {}

  /** After a write that leaves c alone its row still waits, as it was. */
  lemma WriteLeavesWaiting(st: Store, sc: Scope, want: Search, after: Option<Key>, steps: seq<Step>, c: ConversationId)
    requires Inv(st) && Traced(st, sc, want, after, steps) && Complete(steps) && LeftAlone(steps, c) && Waits(st, sc, want, after, c)
    requires steps[0].Write?
    ensures var st' := Apply(st, steps[0].op);
            && Inv(st') && Traced(st', sc, want, after, steps[1..]) && Complete(steps[1..]) && LeftAlone(steps[1..], c)
            && Waits(st', sc, want, after, c) && SummaryOf(st', c) == SummaryOf(st, c)
  {
    RestLeftAlone(steps, c);
    ApplyKeepsInv(st, steps[0].op);
    RowStays(st, steps[0].op, sc, want, after, c);
  }

  lemma ComesNow(row: Summary, steps: seq<Step>)
    requires steps != [] && steps[0].Fetch? && row in steps[0].rows
    ensures Comes(row, steps)
  {}

  lemma FetchIsPage(st: Store, sc: Scope, want: Search, after: Option<Key>, steps: seq<Step>)
    requires steps != [] && Traced(st, sc, want, after, steps) && Complete(steps) && steps[0].Fetch?
    ensures var f := steps[0];
            && IsPage(Listing(st, sc), after, want, EffectiveLimit(f.limit), f.rows, f.hasMore)
            && (!f.hasMore ==> steps[1..] == [])
            && (f.hasMore && f.rows != [] ==> Traced(st, sc, want, Some(KeyOf(Last(f.rows))), steps[1..]) && Complete(steps[1..]))
  {
    if steps[0].hasMore { RestComplete(steps); }
  }

  lemma RestComplete(steps: seq<Step>)
    requires Complete(steps) && steps[0].Fetch? && steps[0].hasMore
    ensures Complete(steps[1..])
  {}

  /** A row waiting beyond the cursor, and left alone, has been returned by the time there is nothing more. */
  lemma {:induction false} UntouchedIsReturned(st: Store, sc: Scope, want: Search, after: Option<Key>, steps: seq<Step>, c: ConversationId)
    requires Inv(st) && Traced(st, sc, want, after, steps) && Complete(steps) && LeftAlone(steps, c) && Waits(st, sc, want, after, c)
    ensures Comes(SummaryOf(st, c), steps)
    decreases |steps|
  {
    if steps[0].Write? {
      WriteLeavesWaiting(st, sc, want, after, steps, c);
      UntouchedIsReturned(Apply(st, steps[0].op), sc, want, after, steps[1..], c);
      ComesLater(SummaryOf(st, c), steps);
    } else {
      RestLeftAlone(steps, c);
      FetchIsPage(st, sc, want, after, steps);
      if SummaryOf(st, c) in steps[0].rows {
        ComesNow(SummaryOf(st, c), steps);
      } else {
        ReturnedOrWaiting(st, sc, want, after, EffectiveLimit(steps[0].limit), steps[0].rows, steps[0].hasMore, c);
        UntouchedIsReturned(st, sc, want, Some(KeyOf(Last(steps[0].rows))), steps[1..], c);
        ComesLater(SummaryOf(st, c), steps);
      }
    }
  }

  /**
   The first pages of a sidebar, whatever happens between them: no conversation comes twice,
   and one that was visible and matching at the start and is left alone comes exactly once,
   as it was.
   */
  lemma UntouchedExactlyOnce(st: Store, sc: Scope, want: Search, steps: seq<Step>, c: ConversationId)
    requires Inv(st) && Traced(st, sc, want, None, steps) && Complete(steps) && LeftAlone(steps, c)
    requires c in st.messages && Listable(st, sc, c) && want(SummaryOf(st, c))
    ensures exists i :: 0 <= i < |Returned(steps)| && Returned(steps)[i] == SummaryOf(st, c) &&
                        forall j | 0 <= j < |Returned(steps)| && j != i :: Returned(steps)[j].conversation != c
  {
    UntouchedIsReturned(st, sc, want, None, steps, c);
    NeverTwice(st, sc, want, None, steps);
    var i :| 0 <= i < |Returned(steps)| && Returned(steps)[i] == SummaryOf(st, c);
  }

  // ---------------------------------------------------------------- termination

  lemma {:induction false} IdsCount(rows: seq<Summary>)
    requires Distinct(rows)
    ensures |IdsOf(rows)| == |rows|
  {
    if rows != [] {
      var init, last := rows[..|rows| - 1], Last(rows);
      IdsCount(init);
      assert rows == init + [last];
      assert IdsOf(rows) == IdsOf(init) + {last.conversation};
      assert last.conversation !in IdsOf(init);
    }
  }

  lemma Cardinality(a: set<ConversationId>, b: set<ConversationId>, whole: set<ConversationId>)
    requires a <= whole && b <= whole && a !! b
    ensures |a| + |b| <= |whole|
  {
    assert |a + b| == |a| + |b|;
    assert |a + b| <= |whole| by { assert whole == (a + b) + (whole - (a + b)); }
  }

  lemma Smaller(a: set<ConversationId>, b: set<ConversationId>)
    requires a <= b
    ensures |a| <= |b|
  {
    Cardinality(a, {}, b);
  }

  /** From any cursor, paging ends: what lies beyond bounds the rows and the pages still to come, however much is written meanwhile. */
  lemma {:induction false} PagingTerminates(st: Store, sc: Scope, want: Search, k: Key, steps: seq<Step>)
    requires Inv(st) && k.updatedAt <= st.lastStamp && Traced(st, sc, want, Some(k), steps)
    ensures |Returned(steps)| <= |BeyondIds(st, k)| && Fetches(steps) <= |BeyondIds(st, k)| + 1
    decreases |steps|
  {
    if steps != [] {
      match steps[0]
      case Write(op) =>
        BeyondNeverGrows(st, op, k);
        Smaller(BeyondIds(Apply(st, op), k), BeyondIds(st, k));
        PagingTerminates(Apply(st, op), sc, want, k, steps[1..]);
      case Fetch(limit, rows, hasMore) =>
        PageTakesFromBeyond(st, sc, want, k, EffectiveLimit(limit), rows, hasMore);
        PageDistinct(Listing(st, sc), Some(k), want, EffectiveLimit(limit), rows, hasMore);
        IdsCount(rows);
        if hasMore {
          var k' := KeyOf(Last(rows));
          CursorMoves(st, sc, want, Some(k), EffectiveLimit(limit), rows);
          Cardinality(IdsOf(rows), BeyondIds(st, k'), BeyondIds(st, k));
          PagingTerminates(st, sc, want, k', steps[1..]);
        } else {
          Smaller(IdsOf(rows), BeyondIds(st, k));
        }
    }
  }

  /** ... and from the first page: at most one page more than there were conversations when it was fetched. */
  lemma WholePagingTerminates(st: Store, sc: Scope, want: Search, steps: seq<Step>)
    requires Inv(st) && steps != [] && steps[0].Fetch? && Traced(st, sc, want, None, steps)
    ensures Fetches(steps) <= |st.messages| + 1
  {
    var Fetch(limit, rows, hasMore) := steps[0];
    if hasMore {
      var k := KeyOf(Last(rows));
      CursorMoves(st, sc, want, None, EffectiveLimit(limit), rows);
      PagingTerminates(st, sc, want, k, steps[1..]);
      assert Last(rows) in rows;
      assert Last(rows).conversation in IdsOf(rows);
      assert Last(rows).conversation in st.messages.Keys;
      Cardinality({Last(rows).conversation}, BeyondIds(st, k), st.messages.Keys);
    }
  }

  // ---------------------------------------------------------------- with nothing written

  /** There is one way to list a map's rows in order. */
  lemma {:induction false} OrderedListingIsUnique(a: seq<Summary>, b: seq<Summary>)
    requires Ordered(a) && Ordered(b) && forall x :: x in a <==> x in b
    ensures a == b
  {
    EmptyTogether(a, b);
    if a != [] {
      assert a[0] in b && b[0] in a;
      FirstIsFirst(a, b);
      assert a == [a[0]] + a[1..] && b == [b[0]] + b[1..];
      forall x ensures x in a[1..] <==> x in b[1..] {
        InTail(a, x);
        InTail(b, x);
      }
      OrderedListingIsUnique(a[1..], b[1..]);
    }
  }

  lemma EmptyTogether(a: seq<Summary>, b: seq<Summary>)
    requires forall x :: x in a <==> x in b
    ensures a == [] <==> b == []
  {
    if a != [] { assert a[0] in b; }
    if b != [] { assert b[0] in a; }
  }

  lemma InTail(a: seq<Summary>, x: Summary)
    requires Ordered(a) && a != []
    ensures x in a[1..] <==> x in a && x != a[0]
  {
    BeforeIsAnOrder(a[0], a[0], a[0]);
    if x in a && x != a[0] {
      var j :| 0 <= j < |a| && a[j] == x;
      assert a[1..][j - 1] == x;
    }
  }

  lemma FirstIsFirst(a: seq<Summary>, b: seq<Summary>)
    requires Ordered(a) && Ordered(b) && a != [] && b != [] && a[0] in b && b[0] in a
    ensures a[0] == b[0]
  {
    if a[0] != b[0] {
      assert Before(a[0], b[0]) && Before(b[0], a[0]);
      BeforeIsAnOrder(a[0], b[0], a[0]);
      assert false;
    }
  }

  lemma LastPage(m: map<ConversationId, Summary>, after: Option<Key>, want: Search, limit: nat, rows: seq<Summary>)
    requires Keyed(m) && IsPage(m, after, want, limit, rows, false)
    ensures Sorts(rows, Rest(m, after, want))
  {}

  /** What was returned is the rows after the key that the search keeps, sorted. */
  ghost predicate ReturnsAll(st: Store, sc: Scope, want: Search, after: Option<Key>, steps: seq<Step>) {
    Sorts(Returned(steps), Rest(Listing(st, sc), after, want))
  }

  predicate AllFetches(steps: seq<Step>) { forall i | 0 <= i < |steps| :: steps[i].Fetch? }

  lemma PageThenRest(st: Store, sc: Scope, want: Search, after: Option<Key>, steps: seq<Step>)
    requires steps != [] && steps[0].Fetch? && steps[0].rows != []
    requires IsPage(Listing(st, sc), after, want, EffectiveLimit(steps[0].limit), steps[0].rows, true)
    requires ReturnsAll(st, sc, want, Some(KeyOf(Last(steps[0].rows))), steps[1..])
    ensures ReturnsAll(st, sc, want, after, steps)
  {
    JoinPages(Listing(st, sc), after, want, EffectiveLimit(steps[0].limit), steps[0].rows, Returned(steps[1..]));
  }

  lemma LastPageIsRest(st: Store, sc: Scope, want: Search, after: Option<Key>, steps: seq<Step>)
    requires steps != [] && steps[0].Fetch? && steps[1..] == []
    requires IsPage(Listing(st, sc), after, want, EffectiveLimit(steps[0].limit), steps[0].rows, false)
    ensures ReturnsAll(st, sc, want, after, steps)
  {
    LastPage(Listing(st, sc), after, want, EffectiveLimit(steps[0].limit), steps[0].rows);
    assert Returned(steps) == steps[0].rows;
  }

  /** With no writes, the pages put together are the visible matching conversations, newest first. */
  lemma {:induction false} QuietPagesConcatenate(st: Store, sc: Scope, want: Search, after: Option<Key>, steps: seq<Step>)
    requires Traced(st, sc, want, after, steps) && Complete(steps) && AllFetches(steps)
    ensures ReturnsAll(st, sc, want, after, steps)
    decreases |steps|
  {
    FetchIsPage(st, sc, want, after, steps);
    if steps[0].hasMore {
      QuietPagesConcatenate(st, sc, want, Some(KeyOf(Last(steps[0].rows))), steps[1..]);
      PageThenRest(st, sc, want, after, steps);
    } else {
      LastPageIsRest(st, sc, want, after, steps);
    }
  }

  /** With no writes, how a client cuts its pages does not matter. */
  lemma LimitsDoNotMatter(st: Store, sc: Scope, want: Search, steps: seq<Step>, steps': seq<Step>)
    requires Traced(st, sc, want, None, steps) && Complete(steps) && AllFetches(steps)
    requires Traced(st, sc, want, None, steps') && Complete(steps') && AllFetches(steps')
    ensures Returned(steps) == Returned(steps')
  {
    QuietPagesConcatenate(st, sc, want, None, steps);
    QuietPagesConcatenate(st, sc, want, None, steps');
    OrderedListingIsUnique(Returned(steps), Returned(steps'));
  }

  lemma JoinPages(m: map<ConversationId, Summary>, after: Option<Key>, want: Search, limit: nat, rows: seq<Summary>, later: seq<Summary>)
    requires IsPage(m, after, want, limit, rows, true) && Sorts(later, Rest(m, Some(KeyOf(Last(rows))), want))
    ensures Sorts(rows + later, Rest(m, after, want))
  {
    var last := Last(rows);
    assert last in rows;
    forall x, y | x in rows && y in later ensures Before(x, y) { BeforeIsAnOrder(x, last, y); }
    if after.Some? {
      var pivot := Summary(after.value.id, after.value.updatedAt, 0, "");
      forall y | y in later ensures Beyond(after, y) { BeforeIsAnOrder(pivot, last, y); }
    }
  }
}
