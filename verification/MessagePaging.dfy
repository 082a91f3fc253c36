/**
 Scrolling back through one conversation: the message handler, newest first, with a cursor
 that names the oldest message of the previous page.
 */
module MessagePaging {
  import opened Basics
  import opened SessionStore
  import opened Visibility

  function LogOf(st: Store, c: ConversationId): seq<Message> { At(st.messages, c, []) }

  const DefaultLimit := 50
  const MaxLimit := 100

  function EffectiveLimit(limit: int): (n: nat)
    ensures 1 <= limit <= 100 ==> n == limit
    ensures limit <= 0 ==> n == 50
    ensures limit > 100 ==> n == 100
  {
    var wanted := if limit > 0 then limit else DefaultLimit;
    if wanted > MaxLimit then MaxLimit else wanted
  }

  function Reversed(log: seq<Message>): (r: seq<Message>)
    ensures |r| == |log|
  {
    if log == [] then [] else [log[|log| - 1]] + Reversed(log[..|log| - 1])
  }

  lemma {:induction false} ReversedAt(log: seq<Message>, i: nat)
    requires i < |log|
    ensures Reversed(log)[i] == log[|log| - 1 - i]
  {
    if i > 0 { ReversedAt(log[..|log| - 1], i - 1); }
  }

  lemma ReversedSplit(a: seq<Message>, b: seq<Message>)
    ensures Reversed(a + b) == Reversed(b) + Reversed(a)
  {
    forall i: nat | i < |a + b| ensures Reversed(a + b)[i] == (Reversed(b) + Reversed(a))[i] {
      ReversedAt(a + b, i);
      if i < |b| { ReversedAt(b, i); } else { ReversedAt(a, i - |b|); }
    }
  }

  /** Where the newest message of that id stands, -1 if nowhere. */
  function FindLast(log: seq<Message>, id: string): (i: int)
    ensures -1 <= i < |log|
    ensures i >= 0 ==> log[i].id == id && forall j | i < j < |log| :: log[j].id != id
    ensures i < 0 ==> forall j | 0 <= j < |log| :: log[j].id != id
  {
    if log == [] then -1
    else if log[|log| - 1].id == id then |log| - 1
    else FindLast(log[..|log| - 1], id)
  }

  /** The messages older than the one the cursor names; all of them when there is none. */
  function Older(log: seq<Message>, cursor: string): Option<seq<Message>> {
    if cursor == "" then Some(log)
    else if FindLast(log, cursor) < 0 then None
    else Some(log[..FindLast(log, cursor)])
  }

  function Newest(log: seq<Message>, limit: nat): seq<Message> {
    if |log| > limit then log[|log| - limit..] else log
  }

  datatype MessagesReply = MissingSession | NoSession | UnknownCursor | Page(rows: seq<Message>, next: Option<string>, hasMore: bool)

  /** The page of a full log, whichever way it is read. */
  function PageOf(log: seq<Message>, cursor: string, limit: nat): MessagesReply
    requires limit > 0
  {
    var older := Older(log, cursor);
    if older.None? then UnknownCursor
    else
      var rows, hasMore := Reversed(Newest(older.value, limit)), |older.value| > limit;
      Page(rows, if hasMore then Some(rows[|rows| - 1].id) else None, hasMore)
  }

  method NewestFirst(log: seq<Message>) returns (r: seq<Message>)
    ensures r == Reversed(log)
  {
    r := [];
    var i := |log|;
    while i > 0
      invariant 0 <= i <= |log|
      invariant r == Reversed(log[i..])
    {
      i := i - 1;
      ReversedSplit([log[i]], log[i + 1..]);
      assert [log[i]] + log[i + 1..] == log[i..];
      r := r + [log[i]];
    }
    assert log[0..] == log;
  }

  /** The first message of that id, or the length. */
  method FindCursor(newestFirst: seq<Message>, cursor: string, ghost log: seq<Message>) returns (at: nat)
    requires newestFirst == Reversed(log)
    ensures at <= |newestFirst| && FindLast(log, cursor) == |log| - 1 - at
  {
    at := 0;
    while at < |newestFirst| && newestFirst[at].id != cursor
      invariant 0 <= at <= |newestFirst|
      invariant forall i | 0 <= i < at :: newestFirst[i].id != cursor
    {
      at := at + 1;
    }
    FoundAt(log, cursor, at);
  }

  /** `stored` is the newest limit + 1 messages of the log when there is no cursor, all of it when there is one. */
  method ReadPage(stored: seq<Message>, cursor: string, limit: nat, ghost log: seq<Message>) returns (reply: MessagesReply)
    requires limit > 0 && stored == Recent(log, if cursor != "" then 0 else limit + 1)
    ensures reply == PageOf(log, cursor, limit)
  {
    var newestFirst := NewestFirst(stored);
    if cursor != "" {
      var at := FindCursor(newestFirst, cursor, log);
      if at == |newestFirst| { return UnknownCursor; }
      newestFirst := newestFirst[at + 1..];
      ReversedFrom(log, at + 1);
    }
    ghost var older := Older(log, cursor).value;
    if cursor == "" { FirstFetch(log, limit); } else { CutFetch(older, limit); }
    var hasMore := |newestFirst| > limit;
    if hasMore { newestFirst := newestFirst[..limit]; }
    assert newestFirst == Reversed(Newest(older, limit));
    reply := Page(newestFirst, if hasMore then Some(newestFirst[limit - 1].id) else None, hasMore);
  }

  method HandleGetConversationMessages(store: InMemorySessionStore, sc: Scope, sid: SessionId, limit: int, cursor: string)
    returns (reply: MessagesReply)
    ensures reply == if sid == "" then MissingSession
                     else if Scoped(store.State(), sc, sid).None? then NoSession
                     else PageOf(LogOf(store.State(), Scoped(store.State(), sc, sid).value.conversation), cursor, EffectiveLimit(limit))
  {
    if sid == "" { return MissingSession; }
    var session := ScopedSession(store, sc, sid);
    if session.None? { return NoSession; }
    var n := EffectiveLimit(limit);
    var stored := store.ListMessages(session.value.conversation, if cursor != "" then 0 else n + 1);
    reply := ReadPage(stored, cursor, n, LogOf(store.State(), session.value.conversation));
  }

  lemma FoundAt(log: seq<Message>, cursor: string, at: nat)
    requires at <= |log| && forall i | 0 <= i < at :: Reversed(log)[i].id != cursor
    requires at < |log| ==> Reversed(log)[at].id == cursor
    ensures FindLast(log, cursor) == |log| - 1 - at
  {
    forall j | |log| - at <= j < |log| ensures log[j].id != cursor {
      ReversedAt(log, |log| - 1 - j);
      assert Reversed(log)[|log| - 1 - j].id != cursor;
    }
    if at < |log| { ReversedAt(log, at); }
  }

  lemma ReversedParts(head: seq<Message>, tail: seq<Message>)
    ensures |Reversed(head + tail)| == |tail| + |head|
    ensures Reversed(head + tail)[|tail|..] == Reversed(head) && Reversed(head + tail)[..|tail|] == Reversed(tail)
  {
    ReversedSplit(head, tail);
    var h, t := Reversed(head), Reversed(tail);
    assert (t + h)[|t|..] == h && (t + h)[..|t|] == t;
  }

  lemma ReversedFrom(log: seq<Message>, k: nat)
    requires k <= |log|
    ensures Reversed(log)[k..] == Reversed(log[..|log| - k])
  {
    var head, tail := log[..|log| - k], log[|log| - k..];
    assert log == head + tail;
    ReversedParts(head, tail);
  }

  lemma ReversedTo(log: seq<Message>, k: nat)
    requires k <= |log|
    ensures Reversed(log)[..k] == Reversed(log[|log| - k..])
  {
    var head, tail := log[..|log| - k], log[|log| - k..];
    assert log == head + tail;
    ReversedParts(head, tail);
  }

  lemma CutFetch(older: seq<Message>, n: nat)
    ensures |older| > n ==> Reversed(older)[..n] == Reversed(Newest(older, n))
  {
    if |older| > n { ReversedTo(older, n); }
  }

  /** One row past the page is enough to cut the first page and to know whether more follow. */
  lemma FirstFetch(log: seq<Message>, n: nat)
    ensures var some := Recent(log, n + 1);
            && (|some| > n <==> |log| > n)
            && (|log| > n ==> Reversed(some)[..n] == Reversed(Newest(log, n)))
            && (|log| <= n ==> some == log)
  {
    if |log| > n {
      var some := log[|log| - (n + 1)..];
      assert Recent(log, n + 1) == some;
      ReversedTo(some, n);
      assert some[1..] == log[|log| - n..];
    }
  }

  // ---------------------------------------------------------------- scrolling while messages arrive

  datatype Step = Write(op: Op) | Fetch(limit: int, rows: seq<Message>, hasMore: bool)

  /** A client fetches page after page of one conversation while anything happens to the store. */
  ghost predicate Traced(st: Store, c: ConversationId, cursor: string, steps: seq<Step>)
    decreases |steps|
  {
    steps == [] ||
    match steps[0]
    case Write(op) => Traced(Apply(st, op), c, cursor, steps[1..])
    case Fetch(limit, rows, hasMore) =>
      var page := PageOf(LogOf(st, c), cursor, EffectiveLimit(limit));
      && page.Page? && page.rows == rows && page.hasMore == hasMore
      && (if hasMore then Traced(st, c, page.next.value, steps[1..]) else steps[1..] == [])
  }

  function Complete(steps: seq<Step>): bool { steps != [] && steps[|steps| - 1].Fetch? && !steps[|steps| - 1].hasMore }

  function Returned(steps: seq<Step>): seq<Message> {
    if steps == [] then [] else (if steps[0].Fetch? then steps[0].rows else []) + Returned(steps[1..])
  }

  function After(st: Store, steps: seq<Step>): Store
    decreases |steps|
  {
    if steps == [] then st else After(if steps[0].Write? then Apply(st, steps[0].op) else st, steps[1..])
  }

  /** Message ids are minted: none is empty, none is used twice. */
  ghost predicate Minted(log: seq<Message>) {
    && (forall i | 0 <= i < |log| :: log[i].id != "")
    && (forall i, j | 0 <= i < j < |log| :: log[i].id != log[j].id)
  }

  lemma {:induction false} LogOnlyGrows(st: Store, steps: seq<Step>, c: ConversationId)
    requires Inv(st)
    ensures LogOf(st, c) <= LogOf(After(st, steps), c)
    decreases |steps|
  {
    if steps != [] {
      if steps[0].Write? {
        ApplyKeepsInv(st, steps[0].op);
        LogOnlyGrows(Apply(st, steps[0].op), steps[1..], c);
      } else {
        LogOnlyGrows(st, steps[1..], c);
      }
    }
  }

  /** A cursor keeps its place however the log grows. */
  lemma CursorKeepsItsPlace(log: seq<Message>, i: nat)
    requires Minted(log) && i < |log|
    ensures Older(log, log[i].id) == Some(log[..i])
  {
    var k := FindLast(log, log[i].id);
  }

  lemma MintedPrefix(log: seq<Message>, longer: seq<Message>)
    requires log <= longer && Minted(longer)
    ensures Minted(log)
  {
    assert forall i | 0 <= i < |log| :: log[i] == longer[i];
  }

  /** A page and what is older than its last row make up what the page was cut from. */
  lemma JoinPages(older: seq<Message>, n: nat)
    requires n < |older|
    ensures Reversed(Newest(older, n)) + Reversed(older[..|older| - n]) == Reversed(older)
  {
    var k := |older| - n;
    assert older == older[..k] + older[k..];
    assert Newest(older, n) == older[k..];
    ReversedSplit(older[..k], older[k..]);
  }

  lemma PageFacts(log: seq<Message>, cursor: string, older: seq<Message>, n: nat)
    requires n > 0 && Older(log, cursor) == Some(older)
    ensures PageOf(log, cursor, n) ==
            Page(Reversed(Newest(older, n)), if |older| > n then Some(older[|older| - n].id) else None, |older| > n)
  {
    if |older| > n { ReversedAt(Newest(older, n), n - 1); }
  }

  lemma FetchFacts(st: Store, c: ConversationId, cursor: string, older: seq<Message>, steps: seq<Step>)
    requires steps != [] && steps[0].Fetch? && Traced(st, c, cursor, steps)
    requires Older(LogOf(st, c), cursor) == Some(older)
    ensures var n := EffectiveLimit(steps[0].limit);
            && steps[0].rows == Reversed(Newest(older, n)) && steps[0].hasMore == (|older| > n)
            && (if |older| > n then Traced(st, c, older[|older| - n].id, steps[1..]) else steps[1..] == [])
            && (Complete(steps) && |older| > n ==> steps[1..] != [])
  {
    PageFacts(LogOf(st, c), cursor, older, EffectiveLimit(steps[0].limit));
  }

  lemma RestOfRun(st: Store, steps: seq<Step>)
    requires Complete(steps) && steps[0].Fetch? && steps[1..] != []
    ensures Complete(steps[1..]) && After(st, steps[1..]) == After(st, steps)
  {}

  /** What the fetches return is these messages, newest first. */
  predicate Gives(steps: seq<Step>, older: seq<Message>) { Returned(steps) == Reversed(older) }

  /** The first fetch returns the newest n of these messages. */
  predicate Fetched(steps: seq<Step>, older: seq<Message>, n: nat) {
    steps != [] && steps[0].Fetch? && steps[0].rows == Reversed(Newest(older, n))
  }

  /** A last page is all there is to return. */
  lemma LastPage(steps: seq<Step>, older: seq<Message>, n: nat)
    requires Fetched(steps, older, n) && steps[1..] == [] && |older| <= n
    ensures Gives(steps, older)
  {
    assert Returned(steps[1..]) == [];
  }

  lemma FirstPage(steps: seq<Step>, older: seq<Message>, n: nat)
    requires Fetched(steps, older, n) && n < |older|
    requires Gives(steps[1..], older[..|older| - n])
    ensures Gives(steps, older)
  {
    JoinPages(older, n);
  }

  lemma AfterWrite(st: Store, c: ConversationId, cursor: string, steps: seq<Step>)
    requires Complete(steps) && steps[0].Write? && Traced(st, c, cursor, steps)
    ensures Complete(steps[1..]) && Traced(Apply(st, steps[0].op), c, cursor, steps[1..])
    ensures After(Apply(st, steps[0].op), steps[1..]) == After(st, steps)
    ensures Returned(steps) == Returned(steps[1..])
  {}

  /** A run that reads on from message n, with minted ids. */
  ghost predicate ReadsOn(st: Store, c: ConversationId, n: nat, steps: seq<Step>) {
    && Inv(st) && n < |LogOf(st, c)| && Complete(steps)
    && Traced(st, c, LogOf(st, c)[n].id, steps) && Minted(LogOf(After(st, steps), c))
  }

  /** After a page that is not the last, the run goes on from the message older than all of it. */
  lemma AfterPage(st: Store, c: ConversationId, cursor: string, older: seq<Message>, steps: seq<Step>, k: nat)
    requires Inv(st) && Complete(steps) && steps[0].Fetch? && Traced(st, c, cursor, steps) && Minted(LogOf(After(st, steps), c))
    requires older <= LogOf(st, c) && Older(LogOf(st, c), cursor) == Some(older)
    requires |older| > EffectiveLimit(steps[0].limit) && k == |older| - EffectiveLimit(steps[0].limit)
    ensures ReadsOn(st, c, k, steps[1..]) && LogOf(st, c)[..k] == older[..k]
  {
    FetchFacts(st, c, cursor, older, steps);
    RestOfRun(st, steps);
    assert LogOf(st, c)[k] == older[k];
  }

  lemma FetchReturns(st: Store, c: ConversationId, cursor: string, older: seq<Message>, steps: seq<Step>)
    requires steps != [] && steps[0].Fetch? && Traced(st, c, cursor, steps) && Older(LogOf(st, c), cursor) == Some(older)
    ensures Fetched(steps, older, EffectiveLimit(steps[0].limit))
    ensures |older| <= EffectiveLimit(steps[0].limit) ==> steps[1..] == []
  {
    FetchFacts(st, c, cursor, older, steps);
  }

  /** A fetch of these messages: it is the last one, or the run reads on below its rows. */
  ghost predicate FetchLeaves(st: Store, c: ConversationId, older: seq<Message>, n: nat, steps: seq<Step>) {
    && Fetched(steps, older, n)
    && (if |older| > n then ReadsOn(st, c, |older| - n, steps[1..]) && LogOf(st, c)[..|older| - n] == older[..|older| - n]
        else steps[1..] == [])
  }

  lemma AfterFetch(st: Store, c: ConversationId, cursor: string, older: seq<Message>, steps: seq<Step>) returns (n: nat)
    requires Inv(st) && steps != [] && steps[0].Fetch? && Traced(st, c, cursor, steps) && Complete(steps)
    requires Minted(LogOf(After(st, steps), c)) && older <= LogOf(st, c) && Older(LogOf(st, c), cursor) == Some(older)
    ensures FetchLeaves(st, c, older, n, steps)
  {
    n := EffectiveLimit(steps[0].limit);
    FetchReturns(st, c, cursor, older, steps);
    if |older| > n { AfterPage(st, c, cursor, older, steps, |older| - n); }
  }

  /** From a fetch on, what is returned is all it was to page through. */
  lemma FromFetch(st: Store, c: ConversationId, older: seq<Message>, n: nat, steps: seq<Step>)
    requires FetchLeaves(st, c, older, n, steps)
    ensures Gives(steps, older)
    decreases |steps|, 0
  {
    if |older| > n {
      FromCursor(st, c, |older| - n, steps[1..]);
      FirstPage(steps, older, n);
    } else {
      LastPage(steps, older, n);
    }
  }

  /** One operation only adds to the log. */
  lemma WriteOnlyAdds(st: Store, op: Op, c: ConversationId)
    requires Inv(st)
    ensures Inv(Apply(st, op)) && LogOf(st, c) <= LogOf(Apply(st, op), c)
  {
    ApplyKeepsInv(st, op);
  }

  lemma CursorStillPlaced(st: Store, c: ConversationId, n: nat, steps: seq<Step>)
    requires Inv(st) && n < |LogOf(st, c)| && Minted(LogOf(After(st, steps), c))
    ensures Older(LogOf(st, c), LogOf(st, c)[n].id) == Some(LogOf(st, c)[..n])
  {
    LogOnlyGrows(st, steps, c);
    MintedPrefix(LogOf(st, c), LogOf(After(st, steps), c));
    CursorKeepsItsPlace(LogOf(st, c), n);
  }

  /** From a cursor on, what is returned is the log below it, whatever arrives above. */
  lemma {:induction false} FromCursor(st: Store, c: ConversationId, n: nat, steps: seq<Step>)
    requires ReadsOn(st, c, n, steps)
    ensures Gives(steps, LogOf(st, c)[..n])
    decreases |steps|
  {
    match steps[0]
    case Write(op) =>
      WriteOnlyAdds(st, op, c);
      AfterWrite(st, c, LogOf(st, c)[n].id, steps);
      FromCursor(Apply(st, op), c, n, steps[1..]);
      assert LogOf(Apply(st, op), c)[..n] == LogOf(st, c)[..n];
    case Fetch(_, _, _) =>
      CursorStillPlaced(st, c, n, steps);
      var limit := AfterFetch(st, c, LogOf(st, c)[n].id, LogOf(st, c)[..n], steps);
      FromFetch(st, c, LogOf(st, c)[..n], limit, steps);
  }

  /**
   Paging back to the beginning, while messages keep arriving, gives exactly the reverse of
   the log as it stood at the first page: no gap, no repeat.
   */
  lemma PagesAreTheLog(st: Store, c: ConversationId, steps: seq<Step>)
    requires Inv(st) && steps != [] && steps[0].Fetch? && Traced(st, c, "", steps) && Complete(steps)
    requires Minted(LogOf(After(st, steps), c))
    ensures Returned(steps) == Reversed(LogOf(st, c))
  {
    var limit := AfterFetch(st, c, "", LogOf(st, c), steps);
    FromFetch(st, c, LogOf(st, c), limit, steps);
  }

  /** A cursor this conversation never issued is refused. */
  lemma ForeignCursor(log: seq<Message>, cursor: string, limit: nat)
    requires limit > 0 && cursor != ""
    ensures PageOf(log, cursor, limit).UnknownCursor? <==> forall i | 0 <= i < |log| :: log[i].id != cursor
  {
    var k := FindLast(log, cursor);
  }
}
