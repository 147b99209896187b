/**
 The access-log ingestor: each poll lists the log objects, takes at most a page of keys after its
 marker, and forwards their events.  Keys are ordered; object keys are time-stamped, so new ones sort
 after all earlier ones.
 */
module AccessLog {
  import opened Checkpoints
  import opened PgStore

  type Key = nat
  type Event = nat

  const MAX_ENTRIES_PER_POLL := 1000

  /** What reading one object brings: its events, nothing because it has gone, or an error after some events. */
  datatype Fate = Readable(events: seq<Event>) | Gone | Fails(events: seq<Event>)

  // ---------------------------------------------------------------- listing

  predicate Ascending(s: seq<Key>) {
    forall i, j :: 0 <= i < j < |s| ==> s[i] < s[j]
  }

  function InsertKey(s: seq<Key>, k: Key): (r: seq<Key>)
    requires Ascending(s) && k !in s
    ensures Ascending(r) && forall x :: x in r <==> x == k || x in s
  {
    if |s| == 0 || s[|s| - 1] < k then s + [k]
    else
      var rest, last := s[..|s| - 1], s[|s| - 1];
      assert s == rest + [last];
      var r := InsertKey(rest, k);
      assert forall i :: 0 <= i < |r| ==> r[i] in r;
      r + [last]
  }

  /** `keys.sort()` on a listing without repetitions. */
  function SortKeys(s: seq<Key>): (r: seq<Key>)
    requires forall i, j :: 0 <= i < j < |s| ==> s[i] != s[j]
    ensures Ascending(r) && forall x :: x in r <==> x in s
  {
    if |s| == 0 then []
    else
      assert s == s[..|s| - 1] + [s[|s| - 1]];
      InsertKey(SortKeys(s[..|s| - 1]), s[|s| - 1])
  }

  lemma HasMember(s: seq<Key>)
    requires s != []
    ensures exists k :: k in s
  {
    assert s[0] in s;
  }

  lemma {:induction false} AscendingIsUnique(a: seq<Key>, b: seq<Key>)
    requires Ascending(a) && Ascending(b) && forall x :: x in a <==> x in b
    ensures a == b
  {
    if |a| == 0 {
      if b != [] {
        HasMember(b);
      }
    } else {
      assert a[|a| - 1] in b;
      assert b != [];
      assert b[|b| - 1] in a;
      var x, y := a[..|a| - 1], b[..|b| - 1];
      assert a == x + [a[|a| - 1]] && b == y + [b[|b| - 1]];
      assert a[|a| - 1] == b[|b| - 1];
      forall k ensures k in x <==> k in y {
        assert k in x ==> k in a && k < a[|a| - 1];
        assert k in y ==> k in b && k < b[|b| - 1];
      }
      AscendingIsUnique(x, y);
    }
  }

  function After(keys: seq<Key>, marker: Option<Key>): (r: seq<Key>)
    ensures forall k :: k in r <==> k in keys && (marker.Some? ==> k > marker.value)
  {
    if marker.None? then keys
    else if |keys| == 0 then []
    else (if keys[0] > marker.value then [keys[0]] else []) + After(keys[1..], marker)
  }

  function FirstPage(keys: seq<Key>): seq<Key> {
    keys[..Min(MAX_ENTRIES_PER_POLL, |keys|)]
  }

  // ---------------------------------------------------------------- one poll

  /** The marker, and the events forwarded so far with the object each came from. */
  datatype Ingest = Ingest(marker: Option<Key>, out: seq<(Key, Event)>)

  function Tagged(k: Key, events: seq<Event>): (r: seq<(Key, Event)>)
    ensures |r| == |events| && forall i :: 0 <= i < |r| ==> r[i] == (k, events[i])
  {
    seq(|events|, i requires 0 <= i < |events| => (k, events[i]))
  }

  /** A page of keys in order; an object that is gone does not move the marker, an error ends the poll. */
  function Walk(s: Ingest, page: seq<Key>, fate: Key -> Fate): (Ingest, bool)
    decreases |page|
  {
    if |page| == 0 then (s, false)
    else
      match fate(page[0])
      case Gone => Walk(s, page[1..], fate)
      case Fails(es) => (s.(out := s.out + Tagged(page[0], es)), true)
      case Readable(es) => Walk(Ingest(Some(page[0]), s.out + Tagged(page[0], es)), page[1..], fate)
  }

  class AccessLogIngestor {
    var lastMarker: Option<Key>
    var forwarded: seq<(Key, Event)>

    constructor ()
      ensures lastMarker == None && forwarded == []
    {
      lastMarker, forwarded := None, [];
    }

    /** `ingest_once`; `listing` is what the store lists and `fate` how each read ends. */
    method IngestOnce(listing: seq<Key>, fate: Key -> Fate) returns (raised: bool)
      requires forall i, j :: 0 <= i < j < |listing| ==> listing[i] != listing[j]
      modifies this
      ensures (Ingest(lastMarker, forwarded), raised) ==
              Walk(Ingest(old(lastMarker), old(forwarded)), FirstPage(After(SortKeys(listing), old(lastMarker))), fate)
      ensures old(lastMarker).Some? ==> lastMarker.Some? && lastMarker.value >= old(lastMarker).value
    {
      var keys := After(SortKeys(listing), lastMarker);
      var page := FirstPage(keys);
      PageIsAscending(SortKeys(listing), lastMarker);
      assert page[0..] == page;
      for i := 0 to |page|
        invariant Walk(Ingest(lastMarker, forwarded), page[i..], fate) == Walk(Ingest(old(lastMarker), old(forwarded)), page, fate)
        invariant old(lastMarker).Some? ==> lastMarker.Some? && lastMarker.value >= old(lastMarker).value
      {
        assert page[i..][1..] == page[i + 1..];
        match fate(page[i])
        case Gone =>
        case Fails(es) =>
          forwarded := forwarded + Tagged(page[i], es);
          return true;
        case Readable(es) =>
          forwarded := forwarded + Tagged(page[i], es);
          lastMarker := Some(page[i]);
      }
      raised := false;
    }
  }

  lemma {:induction false} PageIsAscending(keys: seq<Key>, marker: Option<Key>)
    requires Ascending(keys)
    ensures Ascending(After(keys, marker))
    ensures marker.Some? ==> forall k :: k in After(keys, marker) ==> k > marker.value
    ensures marker.Some? ==> forall i :: 0 <= i < |FirstPage(After(keys, marker))| ==> FirstPage(After(keys, marker))[i] > marker.value
  {
    if marker.Some? && |keys| > 0 {
      PageIsAscending(keys[1..], marker);
      var rest := After(keys[1..], marker);
      forall i | 0 <= i < |rest| ensures keys[0] < rest[i] {
        assert rest[i] in keys[1..];
      }
      forall i | 0 <= i < |After(keys, marker)| ensures After(keys, marker)[i] > marker.value {
        if i > 0 || keys[0] <= marker.value {
          assert After(keys, marker)[i] in rest;
        }
      }
    }
  }

  // ---------------------------------------------------------------- one poll, by its keys

  /** The keys that the poll reads in full. */
  function ReadOf(page: seq<Key>, fate: Key -> Fate): (r: seq<Key>)
    ensures forall k :: k in r ==> k in page && fate(k).Readable?
    decreases |page|
  {
    if |page| == 0 || fate(page[0]).Fails? then []
    else (if fate(page[0]).Readable? then [page[0]] else []) + ReadOf(page[1..], fate)
  }

  function LastOr(keys: seq<Key>, marker: Option<Key>): Option<Key> {
    if |keys| == 0 then marker else Some(keys[|keys| - 1])
  }

  /** The events of objects, one object after the other. */
  function Events(keys: seq<Key>, content: Key -> seq<Event>): seq<(Key, Event)>
    decreases |keys|
  {
    if |keys| == 0 then [] else Tagged(keys[0], content(keys[0])) + Events(keys[1..], content)
  }

  /** Objects do not change: a read brings the object's events, a failing one some of the first of them. */
  ghost predicate Faithful(fate: Key -> Fate, content: Key -> seq<Event>) {
    forall k :: (fate(k).Readable? ==> fate(k).events == content(k)) && (fate(k).Fails? ==> fate(k).events <= content(k))
  }

  /** The marker ends on the last key read; a clean poll forwards exactly the events of the keys read. */
  lemma {:induction false} WalkReads(s: Ingest, page: seq<Key>, fate: Key -> Fate, content: Key -> seq<Event>)
    requires Faithful(fate, content)
    ensures var (n, raised) := Walk(s, page, fate);
            && n.marker == LastOr(ReadOf(page, fate), s.marker)
            && s.out + Events(ReadOf(page, fate), content) <= n.out
            && (!raised ==> n.out == s.out + Events(ReadOf(page, fate), content))
    decreases |page|
  {
    hide Tagged;
    if |page| > 0 {
      var k := page[0];
      match fate(k)
      case Gone =>
        WalkReads(s, page[1..], fate, content);
        assert [] + ReadOf(page[1..], fate) == ReadOf(page[1..], fate);
      case Fails(es) =>
        assert s.out + [] == s.out;
      case Readable(es) =>
        var m := Ingest(Some(k), s.out + Tagged(k, es));
        WalkReads(m, page[1..], fate, content);
        var rest := ReadOf(page[1..], fate);
        assert ([k] + rest)[1..] == rest;
        assert s.out + (Tagged(k, es) + Events(rest, content)) == m.out + Events(rest, content);
    }
  }

  /** A poll raises exactly at the first object that fails, once the events that it brought before are forwarded. */
  lemma {:induction false} RaisedWalk(s: Ingest, page: seq<Key>, fate: Key -> Fate, content: Key -> seq<Event>)
    requires Faithful(fate, content)
    ensures var (n, raised) := Walk(s, page, fate);
            && (raised <==> exists m :: FirstFailing(page, fate, m))
            && forall m :: FirstFailing(page, fate, m) ==>
                 n.out == s.out + Events(ReadOf(page, fate), content) + Tagged(page[m], fate(page[m]).events)
    decreases |page|
  {
    hide Tagged;
    if |page| == 0 {
      NoneFails(page, fate);
    } else {
      var k := page[0];
      FailsLater(page, fate);
      var rest := ReadOf(page[1..], fate);
      match fate(k)
      case Gone =>
        RaisedWalk(s, page[1..], fate, content);
        assert [] + rest == rest;
      case Fails(es) =>
        assert s.out + Events([], content) == s.out;
      case Readable(es) =>
        var m := Ingest(Some(k), s.out + Tagged(k, es));
        RaisedWalk(m, page[1..], fate, content);
        assert ([k] + rest)[1..] == rest;
        assert s.out + (Tagged(k, es) + Events(rest, content)) == m.out + Events(rest, content);
        forall i | FirstFailing(page, fate, i)
          ensures Walk(s, page, fate).0.out == s.out + Events(ReadOf(page, fate), content) + Tagged(page[i], fate(page[i]).events)
        {
          assert FirstFailing(page[1..], fate, i - 1) && page[i] == page[1..][i - 1];
        }
    }
  }

  ghost predicate FirstFailing(page: seq<Key>, fate: Key -> Fate, m: int) {
    0 <= m < |page| && fate(page[m]).Fails? && forall i :: 0 <= i < m ==> !fate(page[i]).Fails?
  }

  lemma NoneFails(page: seq<Key>, fate: Key -> Fate)
    requires page == []
    ensures forall m :: !FirstFailing(page, fate, m)
  {
  }

  lemma FailsLater(page: seq<Key>, fate: Key -> Fate)
    requires |page| > 0
    ensures forall m :: FirstFailing(page, fate, m) <==>
              if fate(page[0]).Fails? then m == 0 else m > 0 && FirstFailing(page[1..], fate, m - 1)
    ensures (exists m :: FirstFailing(page, fate, m)) <==>
              fate(page[0]).Fails? || exists m :: FirstFailing(page[1..], fate, m)
  {
    var rest := page[1..];
    assert fate(page[0]).Fails? ==> FirstFailing(page, fate, 0);
    forall m | !fate(page[0]).Fails? ensures FirstFailing(page, fate, m) <==> m > 0 && FirstFailing(rest, fate, m - 1) {
      if FirstFailing(page, fate, m) {
        assert forall i :: 0 <= i < m - 1 ==> rest[i] == page[i + 1];
      }
      if m > 0 && FirstFailing(rest, fate, m - 1) {
        assert forall i :: 0 < i < m ==> page[i] == rest[i - 1];
      }
    }
    if !fate(page[0]).Fails? {
      if m :| FirstFailing(rest, fate, m) {
        assert FirstFailing(page, fate, m + 1);
      }
      if m :| FirstFailing(page, fate, m) {
        assert FirstFailing(rest, fate, m - 1);
      }
    }
  }

  lemma {:induction false} CleanWalkReturns(s: Ingest, page: seq<Key>, fate: Key -> Fate)
    requires forall i :: 0 <= i < |page| ==> !fate(page[i]).Fails?
    ensures !Walk(s, page, fate).1
    decreases |page|
  {
    if |page| > 0 {
      CleanWalkReturns(if fate(page[0]).Gone? then s else Ingest(Some(page[0]), s.out + Tagged(page[0], fate(page[0]).events)),
                       page[1..], fate);
    }
  }

  /** Every key of the page up to the new marker was read or had gone. */
  lemma {:induction false} ReadCovers(page: seq<Key>, fate: Key -> Fate, k: Key)
    requires Ascending(page) && k in page && ReadOf(page, fate) != []
    requires k <= ReadOf(page, fate)[|ReadOf(page, fate)| - 1]
    ensures k in ReadOf(page, fate) || fate(k).Gone?
    decreases |page|
  {
    var rest := ReadOf(page[1..], fate);
    if k != page[0] {
      assert k in page[1..] && page[0] < k;
      if rest != [] {
        ReadCovers(page[1..], fate, k);
      }
    }
  }

  lemma {:induction false} ReadAscends(page: seq<Key>, fate: Key -> Fate)
    requires Ascending(page)
    ensures Ascending(ReadOf(page, fate))
    decreases |page|
  {
    if |page| > 0 && !fate(page[0]).Fails? {
      ReadAscends(page[1..], fate);
      var rest := ReadOf(page[1..], fate);
      forall i | 0 <= i < |rest| ensures page[0] < rest[i] {
        assert rest[i] in page[1..];
      }
    }
  }

  // ---------------------------------------------------------------- runs of polls

  /** One poll: how many of the objects exist by then, and how the reads end. */
  datatype Poll = Poll(visible: nat, fate: Key -> Fate)

  function PageOf(objects: seq<Key>, p: Poll, marker: Option<Key>): seq<Key>
    requires p.visible <= |objects|
  {
    FirstPage(After(objects[..p.visible], marker))
  }

  /** Whatever order the store lists the objects in, the poll walks the page of their sorted keys. */
  lemma ListingOrderDoesNotMatter(objects: seq<Key>, p: Poll, marker: Option<Key>, listing: seq<Key>)
    requires Ascending(objects) && p.visible <= |objects|
    requires forall i, j :: 0 <= i < j < |listing| ==> listing[i] != listing[j]
    requires forall k :: k in listing <==> k in objects[..p.visible]
    ensures FirstPage(After(SortKeys(listing), marker)) == PageOf(objects, p, marker)
  {
    AscendingIsUnique(SortKeys(listing), objects[..p.visible]);
  }

  /** `objects` are all objects there will ever be, in key order: new ones sort after earlier ones. */
  ghost predicate IsRun(objects: seq<Key>, content: Key -> seq<Event>, polls: seq<Poll>, run: seq<Ingest>) {
    && Ascending(objects) && |run| == |polls| + 1 && run[0] == Ingest(None, [])
    && (forall i :: 0 <= i < |polls| ==> polls[i].visible <= |objects| && Faithful(polls[i].fate, content))
    && (forall i, j :: 0 <= i < j < |polls| ==> polls[i].visible <= polls[j].visible)
    && (forall i :: 0 <= i < |polls| ==>
          run[i + 1] == Walk(run[i], PageOf(objects, polls[i], run[i].marker), polls[i].fate).0)
  }

  /** All keys read in full by the first `n` polls, in the order of reading. */
  ghost function Reads(objects: seq<Key>, content: Key -> seq<Event>, polls: seq<Poll>, run: seq<Ingest>, n: nat): seq<Key>
    requires IsRun(objects, content, polls, run) && n < |run|
  {
    if n == 0 then []
    else Reads(objects, content, polls, run, n - 1)
         + ReadOf(PageOf(objects, polls[n - 1], run[n - 1].marker), polls[n - 1].fate)
  }

  lemma PageFacts(objects: seq<Key>, p: Poll, marker: Option<Key>)
    requires Ascending(objects) && p.visible <= |objects|
    ensures var page := PageOf(objects, p, marker);
            Ascending(page) && forall k :: k in page ==> k in objects && (marker.Some? ==> k > marker.value)
  {
    hide After;
    PageIsAscending(objects[..p.visible], marker);
    var keys, page := After(objects[..p.visible], marker), PageOf(objects, p, marker);
    forall k | k in page ensures k in keys {
    }
  }

  /** The page has no gaps: what stands between the marker and a key of the page is on the page. */
  lemma PageHasNoGaps(objects: seq<Key>, p: Poll, marker: Option<Key>, k: Key, m: Key)
    requires Ascending(objects) && p.visible <= |objects|
    requires k in objects && m in PageOf(objects, p, marker) && k <= m && (marker.Some? ==> k > marker.value)
    ensures k in PageOf(objects, p, marker)
  {
    hide After;
    var visible := objects[..p.visible];
    PageIsAscending(visible, marker);
    var keys, page := After(visible, marker), PageOf(objects, p, marker);
    PrefixHas(objects, p.visible, k, m);
    PrefixHas(keys, |page|, k, m);
  }

  lemma PrefixHas(s: seq<Key>, n: nat, k: Key, m: Key)
    requires Ascending(s) && n <= |s| && k in s && m in s[..n] && k <= m
    ensures k in s[..n]
  {
  }

  lemma StepAscends(objects: seq<Key>, content: Key -> seq<Event>, p: Poll, s: Ingest, done: seq<Key>)
    requires Ascending(objects) && p.visible <= |objects| && Faithful(p.fate, content)
    requires Ascending(done) && s.marker == LastOr(done, None)
    ensures var page := PageOf(objects, p, s.marker);
            var more := ReadOf(page, p.fate);
            && Ascending(done + more) && Walk(s, page, p.fate).0.marker == LastOr(done + more, None)
            && forall k :: k in more ==> k in objects
  {
    hide PageOf, Walk, ReadOf, Faithful, Events;
    var page := PageOf(objects, p, s.marker);
    PageFacts(objects, p, s.marker);
    WalkReads(s, page, p.fate, content);
    ReadAscends(page, p.fate);
    AppendAscends(done, ReadOf(page, p.fate));
  }

  /** The keys read so far strictly ascend, and the marker is the last of them. */
  lemma {:induction false} ReadsAscend(objects: seq<Key>, content: Key -> seq<Event>, polls: seq<Poll>, run: seq<Ingest>, n: nat)
    requires IsRun(objects, content, polls, run) && n < |run|
    ensures var done := Reads(objects, content, polls, run, n);
            Ascending(done) && run[n].marker == LastOr(done, None) && forall k :: k in done ==> k in objects
    decreases n
  {
    hide PageOf, Walk, ReadOf, Faithful, Events;
    if n > 0 {
      hide Ascending;
      ReadsAscend(objects, content, polls, run, n - 1);
      var p, s := polls[n - 1], run[n - 1];
      assert run[n - 1 + 1] == Walk(s, PageOf(objects, p, s.marker), p.fate).0;
      StepAscends(objects, content, p, s, Reads(objects, content, polls, run, n - 1));
    }
  }

  lemma AppendAscends(a: seq<Key>, b: seq<Key>)
    requires Ascending(a) && Ascending(b) && (a != [] ==> forall k :: k in b ==> k > a[|a| - 1])
    ensures Ascending(a + b) && LastOr(a + b, None) == LastOr(b, LastOr(a, None))
  {
    forall i, j | 0 <= i < |a| && 0 <= j < |b| ensures a[i] < b[j] {
      assert b[j] in b;
      assert i < |a| - 1 ==> a[i] < a[|a| - 1];
    }
  }

  /** The marker never goes back. */
  lemma MarkerNeverDecreases(objects: seq<Key>, content: Key -> seq<Event>, polls: seq<Poll>, run: seq<Ingest>, n: nat)
    requires IsRun(objects, content, polls, run) && n < |polls| && run[n].marker.Some?
    ensures run[n + 1].marker.Some? && run[n + 1].marker.value >= run[n].marker.value
  {
    var p, s := polls[n], run[n];
    var page := PageOf(objects, p, s.marker);
    PageFacts(objects, p, s.marker);
    WalkReads(s, page, p.fate, content);
    var done := ReadOf(page, p.fate);
    assert done != [] ==> done[|done| - 1] in page;
  }

  /** Some poll had the object on its page, found it gone, and read a later one. */
  ghost predicate PassedGone(objects: seq<Key>, polls: seq<Poll>, run: seq<Ingest>, n: nat, k: Key)
    requires n <= |polls| < |run| && forall i :: 0 <= i < n ==> polls[i].visible <= |objects|
  {
    exists i ::
      && 0 <= i < n && polls[i].fate(k).Gone? && k in PageOf(objects, polls[i], run[i].marker)
      && run[i + 1].marker.Some? && k < run[i + 1].marker.value
  }

  /** Every object up to the marker has been read in full, or had gone when a poll came to it. */
  lemma {:induction false} NothingIsSkipped(
    objects: seq<Key>, content: Key -> seq<Event>, polls: seq<Poll>, run: seq<Ingest>, n: nat, k: Key)
    requires IsRun(objects, content, polls, run) && n < |run|
    requires k in objects && run[n].marker.Some? && k <= run[n].marker.value
    ensures k in Reads(objects, content, polls, run, n) || PassedGone(objects, polls, run, n, k)
    decreases n
  {
    hide PageOf, Walk, ReadOf, Faithful, Events;
    ReadsAscend(objects, content, polls, run, n);
    var p, s := polls[n - 1], run[n - 1];
    var page := PageOf(objects, p, s.marker);
    assert run[n - 1 + 1] == Walk(s, page, p.fate).0;
    WalkReads(s, page, p.fate, content);
    if s.marker.Some? && k <= s.marker.value {
      NothingIsSkipped(objects, content, polls, run, n - 1, k);
    } else {
      PageFacts(objects, p, s.marker);
      var done := ReadOf(page, p.fate);
      assert done[|done| - 1] in done;
      PageHasNoGaps(objects, p, s.marker, k, done[|done| - 1]);
      ReadCovers(page, p.fate, k);
    }
  }

  /** What is forwarded holds the events of `k` in one piece. */
  ghost predicate Holds(out: seq<(Key, Event)>, k: Key, content: Key -> seq<Event>) {
    exists a :: HoldsAt(out, a, Tagged(k, content(k)))
  }

  predicate HoldsAt(out: seq<(Key, Event)>, a: int, piece: seq<(Key, Event)>) {
    0 <= a <= |out| - |piece| && out[a..a + |piece|] == piece
  }

  lemma {:induction false} EventsHold(
    before: seq<(Key, Event)>, keys: seq<Key>, content: Key -> seq<Event>, out: seq<(Key, Event)>, k: Key)
    requires before + Events(keys, content) <= out && k in keys
    ensures Holds(out, k, content)
    decreases |keys|
  {
    var own := Tagged(keys[0], content(keys[0]));
    var rest := Events(keys[1..], content);
    assert before + (own + rest) == before + own + rest;
    if k == keys[0] {
      assert (before + own + rest)[|before|..|before| + |own|] == own;
      assert out[..|before + own + rest|] == before + own + rest;
      assert HoldsAt(out, |before|, own);
    } else {
      EventsHold(before + own, keys[1..], content, out, k);
    }
  }

  lemma HoldsLater(out: seq<(Key, Event)>, more: seq<(Key, Event)>, k: Key, content: Key -> seq<Event>)
    requires Holds(out, k, content) && out <= more
    ensures Holds(more, k, content)
  {
    var piece := Tagged(k, content(k));
    var a :| HoldsAt(out, a, piece);
    assert more[..|out|] == out;
    assert more[a..a + |piece|] == out[a..a + |piece|];
    assert HoldsAt(more, a, piece);
  }

  /** At least once: the events of every object read in full have been forwarded, also when polls raise midway. */
  lemma {:induction false} ReadIsForwarded(
    objects: seq<Key>, content: Key -> seq<Event>, polls: seq<Poll>, run: seq<Ingest>, n: nat, k: Key)
    requires IsRun(objects, content, polls, run) && n < |run| && k in Reads(objects, content, polls, run, n)
    ensures Holds(run[n].out, k, content)
    decreases n
  {
    hide PageOf, Walk, ReadOf, Faithful, Events, Holds;
    var p, s := polls[n - 1], run[n - 1];
    var page := PageOf(objects, p, s.marker);
    assert run[n - 1 + 1] == Walk(s, page, p.fate).0;
    WalkReads(s, page, p.fate, content);
    if k in Reads(objects, content, polls, run, n - 1) {
      ReadIsForwarded(objects, content, polls, run, n - 1, k);
      HoldsLater(s.out, s.out + Events(ReadOf(page, p.fate), content), k, content);
      HoldsLater(s.out + Events(ReadOf(page, p.fate), content), run[n].out, k, content);
    } else {
      EventsHold(s.out, ReadOf(page, p.fate), content, run[n].out, k);
    }
  }

  lemma {:induction false} EventsConcat(a: seq<Key>, b: seq<Key>, content: Key -> seq<Event>)
    ensures Events(a + b, content) == Events(a, content) + Events(b, content)
    decreases |a|
  {
    if |a| == 0 {
      assert a + b == b;
    } else {
      assert (a + b)[1..] == a[1..] + b;
      EventsConcat(a[1..], b, content);
    }
  }

  ghost predicate Clean(objects: seq<Key>, p: Poll, marker: Option<Key>)
    requires p.visible <= |objects|
  {
    forall i :: 0 <= i < |PageOf(objects, p, marker)| ==> !p.fate(PageOf(objects, p, marker)[i]).Fails?
  }

  /** Exactly once: if no poll raises, what was forwarded is the events of the keys read, object by object in key order. */
  lemma {:induction false} CleanRunsForwardOnce(
    objects: seq<Key>, content: Key -> seq<Event>, polls: seq<Poll>, run: seq<Ingest>, n: nat)
    requires IsRun(objects, content, polls, run) && n < |run|
    requires forall i :: 0 <= i < n ==> Clean(objects, polls[i], run[i].marker)
    ensures run[n].out == Events(Reads(objects, content, polls, run, n), content)
    ensures Ascending(Reads(objects, content, polls, run, n))
    decreases n
  {
    ReadsAscend(objects, content, polls, run, n);
    if n > 0 {
      CleanRunsForwardOnce(objects, content, polls, run, n - 1);
      var p, s := polls[n - 1], run[n - 1];
      var page := PageOf(objects, p, s.marker);
      assert run[n - 1 + 1] == Walk(s, page, p.fate).0;
      assert Clean(objects, p, s.marker);
      CleanWalkReturns(s, page, p.fate);
      WalkReads(s, page, p.fate, content);
      EventsConcat(Reads(objects, content, polls, run, n - 1), ReadOf(page, p.fate), content);
    }
  }

  // ---------------------------------------------------------------- how a backlog drains

  /** The keys that are still to be read when poll `p` starts. */
  function Backlog(objects: seq<Key>, p: Poll, marker: Option<Key>): seq<Key>
    requires p.visible <= |objects|
  {
    After(objects[..p.visible], marker)
  }

  lemma AfterKey(keys: seq<Key>, marker: Option<Key>, i: nat)
    requires Ascending(keys) && i < |After(keys, marker)|
    ensures After(keys, Some(After(keys, marker)[i])) == After(keys, marker)[i + 1..]
  {
    var all := After(keys, marker);
    PageIsAscending(keys, marker);
    PageIsAscending(keys, Some(all[i]));
    forall k ensures k in After(keys, Some(all[i])) <==> k in all[i + 1..] {
      if k in After(keys, Some(all[i])) {
        assert all[i] in all && k in all;
        var j :| 0 <= j < |all| && all[j] == k;
        assert all[i + 1..][j - (i + 1)] == k;
      }
      if k in all[i + 1..] {
        var j :| 0 <= j < |all| - (i + 1) && all[i + 1..][j] == k;
        assert all[i + 1 + j] == k && k in all;
      }
    }
    hide After;
    AscendingIsUnique(After(keys, Some(all[i])), all[i + 1..]);
  }

  lemma {:induction false} AllReadable(page: seq<Key>, fate: Key -> Fate)
    requires forall i :: 0 <= i < |page| ==> fate(page[i]).Readable?
    ensures ReadOf(page, fate) == page
    decreases |page|
  {
    if |page| > 0 {
      AllReadable(page[1..], fate);
      assert page == [page[0]] + page[1..];
    }
  }

  /** Each poll that can read its whole page shortens the backlog by a page. */
  lemma PollShortensBacklog(
    objects: seq<Key>, content: Key -> seq<Event>, polls: seq<Poll>, run: seq<Ingest>, n: nat, next: Poll)
    requires IsRun(objects, content, polls, run) && n < |polls| && next.visible == polls[n].visible
    requires forall k :: k in objects ==> polls[n].fate(k).Readable?
    ensures var before := Backlog(objects, polls[n], run[n].marker);
            Backlog(objects, next, run[n + 1].marker) == before[Min(MAX_ENTRIES_PER_POLL, |before|)..]
  {
    var p, s := polls[n], run[n];
    var page, before := PageOf(objects, p, s.marker), Backlog(objects, p, s.marker);
    PageFacts(objects, p, s.marker);
    forall i | 0 <= i < |page| ensures p.fate(page[i]).Readable? {
      assert page[i] in page;
    }
    WalkReads(s, page, p.fate, content);
    AllReadable(page, p.fate);
    if page != [] {
      assert page[|page| - 1] == before[|page| - 1];
      AfterKey(objects[..p.visible], s.marker, |page| - 1);
    } else {
      assert before == [];
    }
  }

  /** A backlog of any size drains a full page per clean poll: `j` polls later exactly max(0, size - 1000 j) keys are left. */
  lemma {:induction false} BacklogDrains(
    objects: seq<Key>, content: Key -> seq<Event>, polls: seq<Poll>, run: seq<Ingest>, n: nat, j: nat)
    requires IsRun(objects, content, polls, run) && n + j < |polls|
    requires forall i :: n <= i <= n + j ==> polls[i].visible == polls[n].visible
    requires forall i, k :: n <= i < n + j && k in objects ==> polls[i].fate(k).Readable?
    ensures var size := |Backlog(objects, polls[n], run[n].marker)|;
            |Backlog(objects, polls[n + j], run[n + j].marker)| == if size > 1000 * j then size - 1000 * j else 0
    decreases j
  {
    if j > 0 {
      BacklogDrains(objects, content, polls, run, n, j - 1);
      PollShortensBacklog(objects, content, polls, run, n + j - 1, polls[n + j]);
    }
  }

  /** So it is empty after `size` / 1000 polls, rounded up, and no earlier. */
  lemma BacklogIsEmptyAfter(
    objects: seq<Key>, content: Key -> seq<Event>, polls: seq<Poll>, run: seq<Ingest>, n: nat, j: nat)
    requires IsRun(objects, content, polls, run) && n + j < |polls|
    requires forall i :: n <= i <= n + j ==> polls[i].visible == polls[n].visible
    requires forall i, k :: n <= i < n + j && k in objects ==> polls[i].fate(k).Readable?
    ensures Backlog(objects, polls[n + j], run[n + j].marker) == [] <==>
            j >= Chunks(|Backlog(objects, polls[n], run[n].marker)|, 1000)
  {
    BacklogDrains(objects, content, polls, run, n, j);
    ChunksRoundsUp(|Backlog(objects, polls[n], run[n].marker)|, 1000);
    hide Chunks, Backlog;
  }

  // ---------------------------------------------------------------- how polling gets stuck

  /** The first `m` objects of the page have gone, and the next one, if there is one, fails. */
  ghost predicate BlockedAt(page: seq<Key>, fate: Key -> Fate, m: int) {
    && 0 <= m <= |page| && (forall i :: 0 <= i < m ==> fate(page[i]).Gone?)
    && (m < |page| ==> fate(page[m]).Fails?)
  }

  lemma {:induction false} BlockedReadsNothing(page: seq<Key>, fate: Key -> Fate, m: nat)
    requires BlockedAt(page, fate, m)
    ensures ReadOf(page, fate) == []
    decreases m
  {
    if m > 0 {
      BlockedReadsNothing(page[1..], fate, m - 1);
    }
  }

  lemma {:induction false} NothingReadIsBlocked(page: seq<Key>, fate: Key -> Fate) returns (m: nat)
    requires ReadOf(page, fate) == []
    ensures BlockedAt(page, fate, m)
    decreases |page|
  {
    m := 0;
    if |page| > 0 && !fate(page[0]).Fails? {
      m := NothingReadIsBlocked(page[1..], fate);
      m := m + 1;
    }
  }

  /** A poll, raising or not, leaves the marker where it is exactly when its page is gone up to an object that fails, or to its end. */
  lemma StandsStillIff(objects: seq<Key>, content: Key -> seq<Event>, p: Poll, s: Ingest)
    requires Ascending(objects) && p.visible <= |objects| && Faithful(p.fate, content)
    ensures Walk(s, PageOf(objects, p, s.marker), p.fate).0.marker == s.marker <==>
            exists m :: BlockedAt(PageOf(objects, p, s.marker), p.fate, m)
  {
    var page := PageOf(objects, p, s.marker);
    PageFacts(objects, p, s.marker);
    WalkReads(s, page, p.fate, content);
    hide PageOf, Walk, BlockedAt;
    var done := ReadOf(page, p.fate);
    if done == [] {
      var m := NothingReadIsBlocked(page, p.fate);
    } else {
      assert done[|done| - 1] in done;
      forall m ensures !BlockedAt(page, p.fate, m) {
        if BlockedAt(page, p.fate, m) {
          BlockedIsNat(page, p.fate, m);
          BlockedReadsNothing(page, p.fate, m);
        }
      }
    }
  }

  lemma BlockedIsNat(page: seq<Key>, fate: Key -> Fate, m: int)
    requires BlockedAt(page, fate, m)
    ensures m >= 0
  {
  }

  lemma {:induction false} AfterConcat(a: seq<Key>, b: seq<Key>, marker: Option<Key>)
    ensures After(a + b, marker) == After(a, marker) + After(b, marker)
  {
    if |a| == 0 {
      assert a + b == b;
    } else if marker.Some? {
      assert (a + b)[1..] == a[1..] + b;
      AfterConcat(a[1..], b, marker);
    }
  }

  /** More objects only append to the page of a marker, and nothing to a full one. */
  lemma PageGrows(objects: seq<Key>, p: Poll, later: Poll, marker: Option<Key>)
    requires p.visible <= later.visible <= |objects|
    ensures PageOf(objects, p, marker) <= PageOf(objects, later, marker)
    ensures |PageOf(objects, p, marker)| == MAX_ENTRIES_PER_POLL ==> PageOf(objects, later, marker) == PageOf(objects, p, marker)
  {
    hide After;
    var visible, more := objects[..p.visible], objects[p.visible..later.visible];
    assert objects[..later.visible] == visible + more;
    AfterConcat(visible, more, marker);
  }

  /**
   Gone objects at the head of the page, up to one that fails every time or for a full page, block everything
   behind them: while they stay listed, no poll ever moves the marker, whatever else arrives.
   */
  lemma {:induction false} BlockedForGood(
    objects: seq<Key>, content: Key -> seq<Event>, polls: seq<Poll>, run: seq<Ingest>, n: nat, m: nat, j: nat)
    requires IsRun(objects, content, polls, run) && n <= j < |run| && n < |polls|
    requires var page := PageOf(objects, polls[n], run[n].marker);
             && (m < |page| || |page| == MAX_ENTRIES_PER_POLL)
             && forall i :: n <= i < |polls| ==> BlockedAt(page, polls[i].fate, m)
    ensures run[j].marker == run[n].marker
    decreases j
  {
    hide PageOf, Walk, Faithful, BlockedAt;
    if n < j {
      BlockedForGood(objects, content, polls, run, n, m, j - 1);
      var first, p, s := polls[n], polls[j - 1], run[j - 1];
      var page, grown := PageOf(objects, first, s.marker), PageOf(objects, p, s.marker);
      PageGrows(objects, first, p, s.marker);
      assert BlockedAt(page, p.fate, m);
      BlockedOnLonger(page, grown, p.fate, m);
      StandsStillIff(objects, content, p, s);
      assert run[j - 1 + 1] == Walk(s, grown, p.fate).0;
    }
  }

  lemma BlockedOnLonger(page: seq<Key>, grown: seq<Key>, fate: Key -> Fate, m: nat)
    requires BlockedAt(page, fate, m) && page <= grown && (m < |page| || page == grown)
    ensures BlockedAt(grown, fate, m)
  {
  }

  /** A full page of objects that are gone blocks everything behind it: while they stay listed, nothing more is forwarded. */
  lemma {:induction false} FullPageOfGoneBlocks(
    objects: seq<Key>, content: Key -> seq<Event>, polls: seq<Poll>, run: seq<Ingest>, n: nat, j: nat)
    requires IsRun(objects, content, polls, run) && n <= j < |run| && n < |polls|
    requires |Backlog(objects, polls[n], run[n].marker)| >= MAX_ENTRIES_PER_POLL
    requires forall i, k :: n <= i < |polls| && k in PageOf(objects, polls[n], run[n].marker) ==> polls[i].fate(k).Gone?
    ensures run[j] == run[n]
    decreases j
  {
    if n < j {
      FullPageOfGoneBlocks(objects, content, polls, run, n, j - 1);
      var first, p := polls[n], polls[j - 1];
      var page := PageOf(objects, first, run[n].marker);
      PageGrows(objects, first, p, run[n].marker);
      forall i | 0 <= i < |page| ensures p.fate(page[i]).Gone? {
        assert page[i] in page;
      }
      AllGone(run[n], page, p.fate);
      assert run[j - 1 + 1] == Walk(run[j - 1], PageOf(objects, p, run[j - 1].marker), p.fate).0;
    }
  }

  lemma {:induction false} AllGone(s: Ingest, page: seq<Key>, fate: Key -> Fate)
    requires forall i :: 0 <= i < |page| ==> fate(page[i]).Gone?
    ensures Walk(s, page, fate) == (s, false)
    decreases |page|
  {
    if |page| > 0 {
      AllGone(s, page[1..], fate);
    }
  }
}
