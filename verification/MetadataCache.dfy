/** The metadata cache at work: loading, debounced persistence, flushing and clearing, over every run. */
module MetadataCache {
  import opened Prelude
  import opened MetadataDocument

  // ---------------------------------------------------------------- the stored text

  /** An entry as parsed: `updatedAt` is None unless it is a finite number, `value` unless it is an object. */
  datatype RawEntry = RawEntry(key: string, updatedAt: Option<int>, value: Option<Snapshot>)

  /** The parsed store: the two tables are None unless they are objects, an alias unless it is a string. */
  datatype RawDocument = RawDocument(version: int, snapshots: Option<seq<RawEntry>>, aliases: Option<map<string, Option<string>>>)

  function LoadEntries(raw: seq<RawEntry>): seq<Entry> {
    if raw == [] then []
    else
      var before, last := LoadEntries(raw[..|raw| - 1]), raw[|raw| - 1];
      if last.updatedAt.Some? && last.value.Some? then Put(before, Entry(last.key, last.updatedAt.value, last.value.value))
      else before
  }

  predicate Aims(snapshots: seq<Entry>, target: Option<string>) {
    target.Some? && Find(snapshots, target.value).Some?
  }

  function LoadAliases(snapshots: seq<Entry>, raw: map<string, Option<string>>): map<string, string> {
    map k | k in raw && Aims(snapshots, raw[k]) :: raw[k].value
  }

  /** What `cacheDocument` makes of the store: damaged entries and dangling aliases are left out. */
  function Load(raw: Option<RawDocument>): Document {
    if raw.None? || raw.value.version != 2 || raw.value.snapshots.None? || raw.value.aliases.None? then EMPTY
    else
      var snapshots := LoadEntries(raw.value.snapshots.value);
      Document(snapshots, LoadAliases(snapshots, raw.value.aliases.value))
  }

  function RawEntries(snapshots: seq<Entry>): seq<RawEntry> {
    if snapshots == [] then []
    else
      var last := snapshots[|snapshots| - 1];
      RawEntries(snapshots[..|snapshots| - 1]) + [RawEntry(last.key, Some(last.updatedAt), Some(last.value))]
  }

  /** The text that `persist` writes, as a parser reads it. */
  function Written(d: Document): RawDocument {
    RawDocument(2, Some(RawEntries(d.snapshots)), Some(map k | k in d.aliases :: Some(d.aliases[k])))
  }

  lemma {:induction false} LoadEntriesDistinct(raw: seq<RawEntry>)
    ensures DistinctKeys(LoadEntries(raw))
  {
    if raw != [] {
      LoadEntriesDistinct(raw[..|raw| - 1]);
      var before, last := LoadEntries(raw[..|raw| - 1]), raw[|raw| - 1];
      if last.updatedAt.Some? && last.value.Some? {
        PutDistinct(before, Entry(last.key, last.updatedAt.value, last.value.value));
      }
    }
  }

  /** Whatever the store holds, the loaded document has no dangling alias. */
  lemma LoadedIsValid(raw: Option<RawDocument>)
    ensures Valid(Load(raw))
  {
    if raw.Some? && raw.value.snapshots.Some? {
      LoadEntriesDistinct(raw.value.snapshots.value);
    }
  }

  predicate DistinctRaw(raw: seq<RawEntry>) {
    forall i, j | 0 <= i < j < |raw| :: raw[i].key != raw[j].key
  }

  lemma {:induction false} LoadedFrom(raw: seq<RawEntry>)
    requires DistinctRaw(raw)
    ensures forall e :: e in LoadEntries(raw) <==> RawEntry(e.key, Some(e.updatedAt), Some(e.value)) in raw
  {
    if raw != [] {
      var front, last := raw[..|raw| - 1], raw[|raw| - 1];
      LoadedFrom(front);
      assert raw == front + [last];
      var before := LoadEntries(front);
      if last.updatedAt.Some? && last.value.Some? {
        var entry := Entry(last.key, last.updatedAt.value, last.value.value);
        forall i | 0 <= i < |before| ensures before[i].key != last.key {
          assert before[i] in before;
          var x := RawEntry(before[i].key, Some(before[i].updatedAt), Some(before[i].value));
          var j :| 0 <= j < |front| && front[j] == x;
          assert raw[j].key != raw[|front|].key;
        }
        PutAppends(before, entry);
      }
    }
  }

  /** Of a stored document of version 2 exactly the entries with a finite time and an object as value are loaded, and the
      aliases that name one of those; of anything else, nothing. */
  lemma LoadedExactly(raw: RawDocument, key: string)
    requires raw.snapshots.Some? ==> DistinctRaw(raw.snapshots.value)
    ensures var d := Load(Some(raw));
            if raw.version == 2 && raw.snapshots.Some? && raw.aliases.Some? then
              && (forall e :: e in d.snapshots <==> RawEntry(e.key, Some(e.updatedAt), Some(e.value)) in raw.snapshots.value)
              && (key in d.aliases <==> key in raw.aliases.value && Aims(d.snapshots, raw.aliases.value[key]))
              && (key in d.aliases ==> raw.aliases.value[key] == Some(d.aliases[key]))
            else d == EMPTY
  {
    if raw.snapshots.Some? {
      LoadedFrom(raw.snapshots.value);
    }
  }

  lemma {:induction false} PutAppends(snapshots: seq<Entry>, e: Entry)
    requires forall i | 0 <= i < |snapshots| :: snapshots[i].key != e.key
    ensures Put(snapshots, e) == snapshots + [e]
  {
    if snapshots != [] {
      PutAppends(snapshots[1..], e);
      assert snapshots == [snapshots[0]] + snapshots[1..];
    }
  }

  lemma {:induction false} EntriesRoundTrip(snapshots: seq<Entry>)
    requires DistinctKeys(snapshots)
    ensures LoadEntries(RawEntries(snapshots)) == snapshots
  {
    if snapshots != [] {
      var front, last := snapshots[..|snapshots| - 1], snapshots[|snapshots| - 1];
      EntriesRoundTrip(front);
      assert RawEntries(snapshots)[..|RawEntries(snapshots)| - 1] == RawEntries(front);
      PutAppends(front, last);
      assert snapshots == front + [last];
    }
  }

  /** A document that is written and loaded again is the same document. */
  lemma WrittenLoads(d: Document)
    requires Valid(d)
    ensures Load(Some(Written(d))) == d
  {
    EntriesRoundTrip(d.snapshots);
    assert LoadAliases(d.snapshots, Written(d).aliases.value) == d.aliases;
  }

  // ---------------------------------------------------------------- one page

  /** The module's variables and the browser behind them. `timers` and `idles` are the callbacks that can still fire;
      `saved` remembers the document as it was last loaded or persisted. */
  datatype Page = Page(
    loaded: Option<Document>, timer: Option<nat>, idle: Option<nat>, pending: bool,
    timers: set<nat>, idles: set<nat>, nextTimer: nat, nextIdle: nat,
    store: Option<RawDocument>, saved: Option<Document>)

  /** `stores` says whether the browser lets the write happen. */
  datatype Event =
    | Read
    | Cache(keys: seq<string>, details: MediaItem, now: int)
    | TimerFires(handle: nat, now: int, stores: bool)
    | IdleFires(handle: nat, now: int, stores: bool)
    | Flush(now: int, stores: bool)
    | Clear(stores: bool)

  function Opened(p: Page): Page {
    if p.loaded.Some? then p else p.(loaded := Some(Load(p.store)), saved := Some(Load(p.store)))
  }

  function Cancelled(p: Page): Page {
    p.(timers := if p.timer.Some? then p.timers - {p.timer.value} else p.timers,
       idles := if p.idle.Some? then p.idles - {p.idle.value} else p.idles,
       timer := None, idle := None)
  }

  function Scheduled(p: Page): Page {
    var c := Cancelled(p);
    c.(pending := true, timer := Some(c.nextTimer), timers := c.timers + {c.nextTimer}, nextTimer := c.nextTimer + 1)
  }

  /** Persists the document, if one is loaded. */
  function Persist(p: Page, now: int, stores: bool): Page {
    if p.loaded.None? then p
    else
      var d := Persisted(p.loaded.value, now);
      p.(loaded := Some(d), saved := Some(d), store := if stores then Some(Written(d)) else p.store)
  }

  function Remembered(p: Page, keys: seq<string>, details: MediaItem, now: int): Page {
    if keys == [] then p
    else
      var o := Opened(p);
      var r := Stored(o.loaded.value, keys, details, now);
      var after := o.(loaded := Some(r.0));
      if r.1 then Scheduled(after) else after
  }

  function TimerFired(p: Page, hasIdle: bool, handle: nat, now: int, stores: bool): Page {
    var q := p.(timers := p.timers - {handle}, timer := None);
    if hasIdle then q.(idle := Some(q.nextIdle), idles := q.idles + {q.nextIdle}, nextIdle := q.nextIdle + 1)
    else Persist(q.(pending := false), now, stores)
  }

  function IdleFired(p: Page, handle: nat, now: int, stores: bool): Page {
    Persist(p.(idles := p.idles - {handle}, idle := None, pending := false), now, stores)
  }

  function Flushed(p: Page, now: int, stores: bool): Page {
    var c := Cancelled(p).(pending := false);
    if p.pending then Persist(c, now, stores) else c
  }

  function Cleared(p: Page, stores: bool): Page {
    Cancelled(p).(pending := false, loaded := None, saved := None, store := if stores then None else p.store)
  }

  /** One event. A callback can only fire while the browser still holds it. */
  function Step(p: Page, hasIdle: bool, e: Event): Page {
    match e
    case Read => Opened(p)
    case Cache(keys, details, now) => Remembered(p, keys, details, now)
    case TimerFires(handle, now, stores) => if handle in p.timers then TimerFired(p, hasIdle, handle, now, stores) else p
    case IdleFires(handle, now, stores) => if handle in p.idles then IdleFired(p, handle, now, stores) else p
    case Flush(now, stores) => Flushed(p, now, stores)
    case Clear(stores) => Cleared(p, stores)
  }

  function Run(p: Page, hasIdle: bool, events: seq<Event>): Page {
    if events == [] then p else Step(Run(p, hasIdle, events[..|events| - 1]), hasIdle, events[|events| - 1])
  }

  function NewPage(store: Option<RawDocument>, nextTimer: nat, nextIdle: nat): Page {
    Page(None, None, None, false, {}, {}, nextTimer, nextIdle, store, None)
  }

  // ---------------------------------------------------------------- what every run keeps

  function Held(handle: Option<nat>): set<nat> {
    if handle.Some? then {handle.value} else {}
  }

  /** The document in memory differs from the one last loaded or persisted. */
  predicate Changed(p: Page) {
    p.loaded != p.saved
  }

  /** The callbacks the browser holds are exactly those the module knows; there is one if and only if a write is
      pending, and a changed document is always pending. */
  predicate Inv(p: Page) {
    && p.timers == Held(p.timer) && p.idles == Held(p.idle)
    && (p.pending <==> p.timer.Some? || p.idle.Some?) && (p.timer.None? || p.idle.None?)
    && (Changed(p) ==> p.pending)
    && (p.pending ==> p.loaded.Some?)
    && (p.loaded.Some? ==> Valid(p.loaded.value))
  }

  lemma RememberedKeeps(p: Page, keys: seq<string>, details: MediaItem, now: int)
    requires Inv(p)
    ensures Inv(Remembered(p, keys, details, now))
  {
    if keys != [] {
      LoadedIsValid(p.store);
      var d := Opened(p).loaded.value;
      var e := StoredResolves(d, keys, details, now);
      assert !Stored(d, keys, details, now).1 ==> Stored(d, keys, details, now).0 == d;
    }
  }

  lemma PersistKeeps(p: Page, now: int, stores: bool)
    requires p.loaded.Some? ==> Valid(p.loaded.value)
    ensures var q := Persist(p, now, stores);
            && q == p.(loaded := q.loaded, saved := q.saved, store := q.store)
            && (p.loaded.Some? ==> q.loaded.Some? && Valid(q.loaded.value) && q.loaded == q.saved)
            && (p.loaded.None? ==> q == p)
  {
    if p.loaded.Some? {
      PersistKeepsNewest(p.loaded.value, now);
    }
  }

  lemma StepInv(p: Page, hasIdle: bool, e: Event)
    requires Inv(p)
    ensures Inv(Step(p, hasIdle, e))
  {
    match e
    case Read => LoadedIsValid(p.store);
    case Cache(keys, details, now) => RememberedKeeps(p, keys, details, now);
    case TimerFires(handle, now, stores) =>
      PersistKeeps(p.(timers := p.timers - {handle}, timer := None, pending := false), now, stores);
    case IdleFires(handle, now, stores) =>
      PersistKeeps(p.(idles := p.idles - {handle}, idle := None, pending := false), now, stores);
    case Flush(now, stores) => PersistKeeps(Cancelled(p).(pending := false), now, stores);
    case Clear(stores) =>
  }

  lemma {:induction false} RunInv(p: Page, hasIdle: bool, events: seq<Event>)
    requires Inv(p)
    ensures Inv(Run(p, hasIdle, events))
  {
    if events != [] {
      RunInv(p, hasIdle, events[..|events| - 1]);
      StepInv(Run(p, hasIdle, events[..|events| - 1]), hasIdle, events[|events| - 1]);
    }
  }

  /** In every run of a new page no alias dangles, and a changed document has exactly one scheduled persistence:
      the browser holds one callback while a write is pending and none otherwise. */
  lemma {:induction false} ChangedIsScheduledOnce(store: Option<RawDocument>, hasIdle: bool, events: seq<Event>)
    ensures var p := Run(NewPage(store, 0, 0), hasIdle, events);
            && (p.loaded.Some? ==> Valid(p.loaded.value))
            && |p.timers| + |p.idles| == (if p.pending then 1 else 0)
            && (Changed(p) ==> p.pending)
  {
    RunInv(NewPage(store, 0, 0), hasIdle, events);
  }

  /** A pending write is not lost: leaving the page stores a document that loads as the one in memory, and so does
      each callback that ends the wait. */
  lemma PendingIsWritten(p: Page, hasIdle: bool, e: Event)
    requires Inv(p) && p.pending
    requires || (e.Flush? && e.stores)
             || (e.TimerFires? && e.handle in p.timers && !hasIdle && e.stores)
             || (e.IdleFires? && e.handle in p.idles && e.stores)
    ensures var q := Step(p, hasIdle, e);
            && q.loaded == Some(Persisted(p.loaded.value, e.now)) && Load(q.store) == q.loaded.value
            && !q.pending && !Changed(q) && q.timers == {} && q.idles == {}
  {
    PersistKeepsNewest(p.loaded.value, e.now);
    WrittenLoads(Persisted(p.loaded.value, e.now));
  }

  // ---------------------------------------------------------------- clearing

  /** Clearing forgets everything but the handle counters: whatever happened before, what follows is the run of a new
      page, with an empty store or, where the browser refuses, the store as it was. No callback survives that could
      write the old document. */
  lemma {:induction false} ClearingForgets(
    store: Option<RawDocument>, hasIdle: bool, before: seq<Event>, stores: bool, after: seq<Event>)
    ensures var p := Run(NewPage(store, 0, 0), hasIdle, before);
            Run(Step(p, hasIdle, Clear(stores)), hasIdle, after)
            == Run(NewPage(if stores then None else p.store, p.nextTimer, p.nextIdle), hasIdle, after)
  {
    RunInv(NewPage(store, 0, 0), hasIdle, before);
    var p := Run(NewPage(store, 0, 0), hasIdle, before);
    assert Step(p, hasIdle, Clear(stores)) == NewPage(if stores then None else p.store, p.nextTimer, p.nextIdle);
  }

  predicate Quiet(p: Page) {
    && p.timers == {} && p.idles == {} && p.timer.None? && p.idle.None? && !p.pending && p.store.None?
    && (p.loaded.Some? ==> p.loaded.value == EMPTY)
  }

  /** After clearing, whatever fires, nothing is written until another item is cached. */
  lemma {:induction false} ClearedStaysEmpty(p: Page, hasIdle: bool, events: seq<Event>)
    requires Inv(p) && forall i | 0 <= i < |events| :: !events[i].Cache?
    ensures Quiet(Run(Cleared(p, true), hasIdle, events))
  {
    if events != [] {
      ClearedStaysEmpty(p, hasIdle, events[..|events| - 1]);
    }
  }

  // ---------------------------------------------------------------- the module's own variables

  /** The two loops of `cacheDocument`. */
  method LoadDocument(raw: Option<RawDocument>) returns (d: Document)
    ensures d == Load(raw)
  {
    if raw.None? || raw.value.version != 2 || raw.value.snapshots.None? || raw.value.aliases.None? {
      return EMPTY;
    }
    var entries, links := raw.value.snapshots.value, raw.value.aliases.value;
    var snapshots: seq<Entry> := [];
    for i := 0 to |entries|
      invariant snapshots == LoadEntries(entries[..i])
    {
      assert entries[..i + 1][..i] == entries[..i];
      var raw := entries[i];
      if raw.updatedAt.Some? && raw.value.Some? {
        snapshots := Put(snapshots, Entry(raw.key, raw.updatedAt.value, raw.value.value));
      }
    }
    assert entries[..|entries|] == entries;
    var aliases: map<string, string>, left := map[], links.Keys;
    while left != {}
      invariant left <= links.Keys
      invariant aliases == LoadAliases(snapshots, map k | k in links && k !in left :: links[k])
    {
      var k :| k in left;
      if Aims(snapshots, links[k]) {
        aliases := aliases[k := links[k].value];
      }
      left := left - {k};
    }
    assert (map k | k in links && k !in left :: links[k]) == links;
    return Document(snapshots, aliases);
  }

  /** The lookup loop of `cachedEntry`. */
  method FindCachedEntry(d: Document, keys: seq<string>, now: int) returns (r: Option<Entry>)
    ensures r == CachedEntry(d, keys, now)
  {
    for i := 0 to |keys|
      invariant CachedEntry(d, keys, now) == CachedEntry(d, keys[i..], now)
    {
      var entry := Find(d.snapshots, if keys[i] in d.aliases then d.aliases[keys[i]] else keys[i]);
      if entry.Some? && now - entry.value.updatedAt <= MAX_AGE {
        return entry;
      }
      assert keys[i..][1..] == keys[i + 1..];
    }
    return None;
  }

  /** The last loop of `cacheMediaItem`: every key is pointed at the target. */
  method PointAliases(aliases: map<string, string>, keys: seq<string>, target: string) returns (r: map<string, string>, changed: bool)
    ensures r == Aliased(aliases, keys, target)
    ensures changed <==> r != aliases
  {
    r, changed := aliases, false;
    for i := 0 to |keys|
      invariant r == Aliased(aliases, keys[..i], target)
      invariant changed <==> r != aliases
    {
      assert keys[..i + 1][..i] == keys[..i];
      AliasedProperties(aliases, keys[..i], target, keys[i]);
      AliasedProperties(aliases, keys[..i + 1], target, keys[i]);
      if keys[i] !in r || r[keys[i]] != target {
        r := r[keys[i] := target];
        changed := true;
      } else {
        assert r[keys[i] := target] == r;
      }
    }
    assert keys[..|keys|] == keys;
  }

  /** The page's timers, idle callbacks and local storage. */
  class Browser {
    const hasIdle: bool
    var timers: set<nat>
    var idles: set<nat>
    var nextTimer: nat
    var nextIdle: nat
    var store: Option<RawDocument>

    constructor (hasIdle: bool, store: Option<RawDocument>)
      ensures this.hasIdle == hasIdle && this.store == store
      ensures timers == {} && idles == {} && nextTimer == 0 && nextIdle == 0
    {
      this.hasIdle, this.store := hasIdle, store;
      timers, idles, nextTimer, nextIdle := {}, {}, 0, 0;
    }

    method SetTimeout() returns (handle: nat)
      modifies this`timers, this`nextTimer
      ensures handle == old(nextTimer) && nextTimer == handle + 1 && timers == old(timers) + {handle}
    {
      handle := nextTimer;
      timers, nextTimer := timers + {handle}, handle + 1;
    }

    method RequestIdleCallback() returns (handle: nat)
      modifies this`idles, this`nextIdle
      ensures handle == old(nextIdle) && nextIdle == handle + 1 && idles == old(idles) + {handle}
    {
      handle := nextIdle;
      idles, nextIdle := idles + {handle}, handle + 1;
    }
  }

  class Module {
    const browser: Browser
    var loaded: Option<Document>
    var timer: Option<nat>
    var idle: Option<nat>
    var pending: bool
    ghost var saved: Option<Document>

    ghost function View(): Page
      reads this, browser
    {
      Page(loaded, timer, idle, pending, browser.timers, browser.idles, browser.nextTimer, browser.nextIdle, browser.store, saved)
    }

    constructor (browser: Browser)
      requires browser.timers == {} && browser.idles == {}
      ensures this.browser == browser
      ensures View() == NewPage(browser.store, browser.nextTimer, browser.nextIdle)
    {
      this.browser := browser;
      loaded, timer, idle, pending := None, None, None, false;
      saved := None;
    }

    method CacheDocument() returns (d: Document)
      modifies this
      ensures View() == Opened(old(View())) && loaded == Some(d)
    {
      if loaded.None? {
        var fromStore := LoadDocument(browser.store);
        loaded := Some(fromStore);
        saved := loaded;
      }
      d := loaded.value;
    }

    method CancelScheduledPersistence()
      modifies this, browser
      ensures View() == Cancelled(old(View()))
    {
      if timer.Some? {
        browser.timers := browser.timers - {timer.value};
        timer := None;
      }
      if idle.Some? {
        browser.idles := browser.idles - {idle.value};
        idle := None;
      }
    }

    method SchedulePersistence()
      modifies this, browser
      ensures View() == Scheduled(old(View()))
    {
      CancelScheduledPersistence();
      pending := true;
      var handle := browser.SetTimeout();
      timer := Some(handle);
    }

    /** Persists the document, if one is loaded. */
    method PersistLoaded(now: int, stores: bool)
      modifies this, browser
      ensures View() == Persist(old(View()), now, stores)
    {
      if loaded.Some? {
        loaded := Some(Persisted(loaded.value, now));
        saved := loaded;
        if stores {
          browser.store := Some(Written(loaded.value));
        }
      }
    }

    /** The debounce timer's callback. */
    method OnTimer(handle: nat, now: int, stores: bool)
      requires handle in browser.timers
      modifies this, browser
      ensures View() == Step(old(View()), browser.hasIdle, TimerFires(handle, now, stores))
    {
      browser.timers := browser.timers - {handle};
      timer := None;
      if browser.hasIdle {
        var requested := browser.RequestIdleCallback();
        idle := Some(requested);
        return;
      }
      pending := false;
      PersistLoaded(now, stores);
    }

    /** The idle callback. */
    method OnIdle(handle: nat, now: int, stores: bool)
      requires handle in browser.idles
      modifies this, browser
      ensures View() == Step(old(View()), browser.hasIdle, IdleFires(handle, now, stores))
    {
      browser.idles := browser.idles - {handle};
      idle := None;
      pending := false;
      PersistLoaded(now, stores);
    }

    method FlushMetadataCache(now: int, stores: bool)
      modifies this, browser
      ensures View() == Step(old(View()), browser.hasIdle, Flush(now, stores))
    {
      var shouldPersist := pending;
      CancelScheduledPersistence();
      pending := false;
      if shouldPersist {
        PersistLoaded(now, stores);
      }
    }

    method CacheMediaItem(item: MediaItem, details: MediaItem, locale: string, titleId: string, now: int)
      modifies this, browser
      ensures View() == Step(old(View()), browser.hasIdle, Cache(IdentityKeys(item, locale, titleId), details, now))
    {
      var keys := IdentityKeys(item, locale, titleId);
      if keys == [] {
        return;
      }
      var d := CacheDocument();
      var previous := FindCachedEntry(d, keys, now);
      var target := if previous.Some? then previous.value.key else keys[0];
      var known := if previous.Some? then previous.value.value else NOTHING;
      var value := Spread(known, SnapshotOf(details));
      var changed := previous.None? || known != value;
      var snapshots := if changed then Put(d.snapshots, Entry(target, now, value)) else d.snapshots;
      var aliases, pointed := PointAliases(d.aliases, keys, target);
      loaded := Some(Document(snapshots, aliases));
      if changed || pointed {
        SchedulePersistence();
      }
    }

    method CachedMediaItem(item: MediaItem, locale: string, now: int) returns (r: MediaItem)
      modifies this
      ensures View() == Step(old(View()), browser.hasIdle, Read)
      ensures var found := CachedEntry(View().loaded.GetOr(EMPTY), IdentityKeys(item, locale, ""), now);
              r == if found.Some? then Overlay(item, found.value.value) else item
    {
      var d := CacheDocument();
      var selected := FindCachedEntry(d, IdentityKeys(item, locale, ""), now);
      r := if selected.Some? then Overlay(item, selected.value.value) else item;
    }

    method ClearMetadataCache(stores: bool)
      modifies this, browser
      ensures View() == Step(old(View()), browser.hasIdle, Clear(stores))
    {
      CancelScheduledPersistence();
      pending := false;
      loaded := None;
      saved := None;
      if stores {
        browser.store := None;
      }
    }
  }
}
