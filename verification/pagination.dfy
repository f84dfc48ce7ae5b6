/** The paginated query of contract `auto-withdrawer`: pages over an ascending list of keys,
    each starting at the key the page before named. */
module Pagination {
  import opened Results
  import opened KeyOrder

  /** The keys at or after an inclusive bound. */
  function From(ks: seq<string>, start: Option<string>): seq<string> {
    if start.None? || ks == [] || !Less(ks[0], start.value) then ks else From(ks[1..], start)
  }

  /** One answer: the listed keys, and the key to continue with. */
  function Page(ks: seq<string>, start: Option<string>, limit: nat): (seq<string>, Option<string>) {
    var rest := From(ks, start);
    if |rest| <= limit then (rest, None) else (rest[..limit], Some(rest[limit]))
  }

  /** Where a client that follows the keys stands. */
  datatype Cursor = At(start: Option<string>) | Done

  function After(next: Option<string>): Cursor { if next.None? then Done else At(next) }

  /** A client that follows `next_page_key`, one request for each list: the stored keys may
      change between requests. */
  function Follow(lists: seq<seq<string>>, cursor: Cursor, limit: nat): (seq<string>, Cursor)
    decreases |lists|
  {
    if lists == [] || cursor.Done? then ([], cursor)
    else
      var (page, next) := Page(lists[0], cursor.start, limit);
      var (later, last) := Follow(lists[1..], After(next), limit);
      (page + later, last)
  }

  lemma {:induction false} FromIsSuffix(ks: seq<string>, start: Option<string>)
    requires Ascending(ks)
    ensures var rest := From(ks, start);
            && |rest| <= |ks| && rest == ks[|ks| - |rest|..]
            && (start.Some? ==> (forall k | k in rest :: !Less(k, start.value))
                                && forall k | k in ks[..|ks| - |rest|] :: Less(k, start.value))
  {
    if start.Some? && ks != [] {
      if Less(ks[0], start.value) {
        FromIsSuffix(ks[1..], start);
        var n := |ks| - |From(ks, start)|;
        assert ks[..n] == [ks[0]] + ks[1..][..n - 1];
      } else {
        forall k | k in ks ensures !Less(k, start.value) {
          var i :| 0 <= i < |ks| && ks[i] == k;
          if Less(k, start.value) && i > 0 { LessIsTransitive(ks[0], k, start.value); }
        }
      }
    }
  }

  // ---------------------------------------------------------------- a list that changes

  ghost predicate AtOrAfter(k: string, cursor: Cursor) {
    cursor.At? && (cursor.start.None? || !Less(k, cursor.start.value))
  }

  lemma LessThrough(a: string, b: string, c: string)
    requires Less(a, b) && !Less(c, b)
    ensures Less(a, c)
  {
    LessIsTotal(b, c);
    if b != c { LessIsTransitive(a, b, c); }
  }

  /** A page lists exactly the stored keys from its cursor up to the next one. */
  lemma PageIsInterval(ks: seq<string>, start: Option<string>, limit: nat)
    requires Ascending(ks)
    ensures var (page, next) := Page(ks, start, limit);
            && Ascending(page) && |page| <= limit
            && (forall k | k in page :: k in ks && AtOrAfter(k, At(start)) && !AtOrAfter(k, After(next)))
            && (forall k | k in ks && AtOrAfter(k, At(start)) && !AtOrAfter(k, After(next)) :: k in page)
            && (forall k | AtOrAfter(k, After(next)) :: AtOrAfter(k, At(start)))
  {
    FromIsSuffix(ks, start);
    var rest := From(ks, start);
    var (page, next) := Page(ks, start, limit);
    var n := |ks| - |rest|;
    forall k | k in page ensures k in ks && AtOrAfter(k, At(start)) && !AtOrAfter(k, After(next)) {
      var i :| 0 <= i < |page| && page[i] == k;
      assert ks[n + i] == k;
      assert next.Some? ==> ks[n + limit] == next.value;
    }
    forall k | k in ks && AtOrAfter(k, At(start)) && !AtOrAfter(k, After(next)) ensures k in page {
      KeyIsOnPage(ks, start, limit, k);
    }
    if next.Some? && start.Some? {
      assert next.value in rest;
      forall k | AtOrAfter(k, At(next)) ensures !Less(k, start.value) {
        if Less(k, start.value) { LessThrough(k, start.value, next.value); }
      }
    }
  }

  lemma KeyIsOnPage(ks: seq<string>, start: Option<string>, limit: nat, k: string)
    requires Ascending(ks) && k in ks
    requires AtOrAfter(k, At(start)) && !AtOrAfter(k, After(Page(ks, start, limit).1))
    ensures k in Page(ks, start, limit).0
  {
    FromIsSuffix(ks, start);
    var rest := From(ks, start);
    var n := |ks| - |rest|;
    var i :| 0 <= i < |ks| && ks[i] == k;
    assert k == rest[i - n];
    if |rest| > limit {
      assert rest[limit] == ks[n + limit];
      if i >= n + limit { NotBefore(ks, n + limit, i); }
      assert k == rest[..limit][i - n];
    }
  }

  lemma NotBefore(ks: seq<string>, i: nat, j: nat)
    requires Ascending(ks) && i <= j < |ks|
    ensures !Less(ks[j], ks[i])
  {
    if i < j { LessIsStrict(ks[i], ks[j]); } else if Less(ks[j], ks[i]) { LessIsStrict(ks[j], ks[i]); }
  }

  /** Whatever is bonded or removed between requests: nothing is listed twice, the order is
      kept, everything listed was stored at some request, and a key that stays stored
      throughout is listed once the cursor has passed it, so always when the client is done. */
  lemma {:induction false} ChangingListIsListedOnce(lists: seq<seq<string>>, cursor: Cursor, limit: nat)
    requires forall i :: 0 <= i < |lists| ==> Ascending(lists[i])
    ensures var (listed, last) := Follow(lists, cursor, limit);
            && Ascending(listed)
            && (forall k | k in listed :: AtOrAfter(k, cursor) && !AtOrAfter(k, last))
            && (forall k | k in listed :: exists i :: 0 <= i < |lists| && k in lists[i])
            && (forall k | AtOrAfter(k, last) :: AtOrAfter(k, cursor))
            && (forall k | AtOrAfter(k, cursor) && !AtOrAfter(k, last)
                           && (forall i :: 0 <= i < |lists| ==> k in lists[i]) ::
                  k in listed)
    decreases |lists|
  {
    if lists != [] && cursor.At? {
      var (page, next) := Page(lists[0], cursor.start, limit);
      var after := After(next);
      PageIsInterval(lists[0], cursor.start, limit);
      ChangingListIsListedOnce(lists[1..], after, limit);
      var (later, last) := Follow(lists[1..], after, limit);
      var listed := page + later;
      forall i, j | 0 <= i < j < |listed| ensures Less(listed[i], listed[j]) {
        if j >= |page| && i < |page| {
          assert listed[i] in page && listed[j] in later;
          LessThrough(listed[i], after.start.value, listed[j]);
        }
      }
    }
  }

  /** Every page before the last is full, whatever changes between requests. */
  lemma {:induction false} PagesAreFull(lists: seq<seq<string>>, cursor: Cursor, limit: nat)
    requires cursor.At?
    ensures var (listed, last) := Follow(lists, cursor, limit);
            |listed| <= |lists| * limit && (last.At? ==> |listed| == |lists| * limit)
    decreases |lists|
  {
    if lists != [] {
      var (page, next) := Page(lists[0], cursor.start, limit);
      var n := |lists| - 1;
      assert |lists| * limit == limit + n * limit;
      if next.Some? { PagesAreFull(lists[1..], At(next), limit); } else { assert n * limit >= 0; }
    }
  }

  // ---------------------------------------------------------------- a list at rest

  /** All requests see the same list. */
  predicate Unchanged(lists: seq<seq<string>>, ks: seq<string>) {
    lists != [] && forall i :: 0 <= i < |lists| ==> lists[i] == ks
  }

  /** An ascending list that has every key of another before its own keys is its prefix. */
  lemma {:induction false} DownClosedIsPrefix(a: seq<string>, b: seq<string>)
    requires Ascending(a) && Ascending(b)
    requires forall k | k in a :: k in b
    requires forall k, l | k in b && l in a && Less(k, l) :: k in a
    ensures |a| <= |b| && a == b[..|a|]
  {
    if a != [] {
      assert a[0] in b;
      assert a[0] == b[0] by {
        var j :| 0 <= j < |b| && b[j] == a[0];
        if j > 0 {
          assert b[0] in a;
          var i :| 0 <= i < |a| && a[i] == b[0];
          LessIsStrict(b[0], b[j]);
        }
      }
      forall k | k in a[1..] ensures k in b[1..] {
        assert k in a && k in b;
        var i :| 0 <= i < |a[1..]| && a[1..][i] == k;
        LessIsStrict(a[0], a[1 + i]);
      }
      forall k, l | k in b[1..] && l in a[1..] && Less(k, l) ensures k in a[1..] {
        assert k in b && l in a && k in a;
        var i :| 0 <= i < |b[1..]| && b[1..][i] == k;
        LessIsStrict(b[0], b[1 + i]);
      }
      DownClosedIsPrefix(a[1..], b[1..]);
    }
  }

  /** The key to continue with was stored at some request. */
  lemma {:induction false} LastKeyIsStored(lists: seq<seq<string>>, cursor: Cursor, limit: nat)
    requires cursor.At? && lists != [] && forall i :: 0 <= i < |lists| ==> Ascending(lists[i])
    ensures var last := Follow(lists, cursor, limit).1;
            last.At? ==> last.start.Some? && exists i :: 0 <= i < |lists| && last.start.value in lists[i]
    decreases |lists|
  {
    FromIsSuffix(lists[0], cursor.start);
    var (page, next) := Page(lists[0], cursor.start, limit);
    if next.Some? {
      assert next.value in lists[0];
      if |lists| > 1 { LastKeyIsStored(lists[1..], At(next), limit); }
    }
  }

  /** What was listed so far is a prefix, and a proper one as long as the client is not done. */
  lemma ListedIsPrefix(lists: seq<seq<string>>, ks: seq<string>, limit: nat)
    requires Unchanged(lists, ks) && Ascending(ks)
    ensures var (listed, last) := Follow(lists, At(None), limit);
            && |listed| <= |ks| && listed == ks[..|listed|]
            && (last.Done? <==> |listed| == |ks|)
  {
    var (listed, last) := Follow(lists, At(None), limit);
    ChangingListIsListedOnce(lists, At(None), limit);
    LastKeyIsStored(lists, At(None), limit);
    forall k, l | k in ks && l in listed && Less(k, l) ensures k in listed {
      if last.At? { BeforeCursor(k, l, last); }
    }
    DownClosedIsPrefix(listed, ks);
    if last.At? {
      assert last.start.value !in listed by { NotBefore([last.start.value], 0, 0); }
      assert last.start.value in ks;
    } else if |listed| < |ks| {
      assert ks[|listed|] in listed;
      var i :| 0 <= i < |listed| && listed[i] == ks[|listed|];
      AscendingIsDistinct(ks, i, |listed|);
    }
  }

  lemma BeforeCursor(k: string, l: string, cursor: Cursor)
    requires Less(k, l) && !AtOrAfter(l, cursor)
    ensures !AtOrAfter(k, cursor)
  {
    if cursor.At? && cursor.start.Some? { LessIsTransitive(k, l, cursor.start.value); }
  }

  /** After any number of requests with any limit, the pages together are the first
      requests * limit keys in order, and the client is done exactly when that is all. */
  lemma PagesAfter(lists: seq<seq<string>>, ks: seq<string>, limit: nat)
    requires Unchanged(lists, ks) && Ascending(ks)
    ensures var (listed, last) := Follow(lists, At(None), limit);
            && (last.Done? <==> |lists| * limit >= |ks|)
            && listed == if |lists| * limit >= |ks| then ks else ks[..|lists| * limit]
  {
    ListedIsPrefix(lists, ks, limit);
    PagesAreFull(lists, At(None), limit);
  }

  /** Some number of requests finishes exactly when the limit is positive or nothing is stored. */
  lemma ClientFinishesIff(ks: seq<string>, limit: nat)
    requires Ascending(ks)
    ensures (exists lists :: Unchanged(lists, ks) && Follow(lists, At(None), limit).1.Done?) <==> limit > 0 || ks == []
  {
    if limit > 0 || ks == [] {
      var lists := seq(|ks| + 1, i => ks);
      assert |lists| * limit >= |ks| by { if limit > 0 { assert |lists| * limit >= |lists| * 1; } }
      PagesAfter(lists, ks, limit);
      assert Unchanged(lists, ks) && Follow(lists, At(None), limit).1.Done?;
    } else if lists :| Unchanged(lists, ks) && Follow(lists, At(None), limit).1.Done? {
      PagesAfter(lists, ks, limit);
      assert false;
    }
  }
}
