/** Searches whose semantic answer throws the speculation away: what such a run returns, and what it can lose. */
module SearchDiscard {
  import opened Prelude
  import opened Dedup
  import opened SearchPublication
  import opened AddonPool
  import opened SearchMachine

  function Gathered<T>(p: Publication<T>): seq<T> {
    p.published + Flatten(p.pending)
  }

  /** A semantic answer that arrives in `s` and throws the speculation away. */
  ghost predicate Discards<T(!new)>(setup: Setup<T>, s: State<T>, a: SemanticAnswer<T>) {
    s.phase == AwaitSemantic && !s.aborted && PossibleAnswer(setup, a) && !Keeps(setup, a.page)
  }

  // ---------------------------------------------------------------- which items of the answer stay represented

  /** After the discard an item of the answer shares an identity with a collected item if and only if it shares one with
      what stays, or with an item of the answer that was new against everything known before. */
  lemma {:induction false} AnswerItemIsRepresented<T(!new)>(
    ids: T -> set<string>, setup: Setup<T>, s: State<T>, a: SemanticAnswer<T>, x: T)
    requires Sound(ids, s.pub) && Discards(setup, s, a) && a.page.Some?
    ensures var q := Step(ids, setup, s, SemanticReply(a)).pub;
            ids(x) !! IdsAll(ids, Gathered(q))
            <==> ids(x) !! IdsAll(ids, Staying(s.pub)) + IdsAll(ids, Unseen(ids, s.pub.known, a.page.value.items))
  {
    var unique := Unseen(ids, s.pub.known, a.page.value.items);
    var q := Step(ids, setup, s, SemanticReply(a)).pub;
    DiscardingAnswer(ids, setup, s, a);
    ApartPermutation(ids, Staying(s.pub) + unique, Gathered(q));
    IdsAllConcat(ids, Staying(s.pub), unique);
  }

  // ---------------------------------------------------------------- what a discarding run returns

  /** The collected items are the first sightings of `stock`. */
  ghost predicate FirstOf<T(!new)>(ids: T -> set<string>, p: Publication<T>, stock: seq<T>) {
    Represents(ids, p.(arrived := stock))
  }

  lemma FlushArrives<T(!new)>(ids: T -> set<string>, p: Publication<T>, stock: seq<T>, page: int, terminal: Option<Terminal>)
    ensures var q := Flush(ids, p, page, false, terminal);
            q.arrived == p.arrived && Flush(ids, p.(arrived := stock), page, false, terminal) == q.(arrived := stock)
  {
    var merged := p.(timer := false, published := MergeAll(ids, p.published, Sort(p.pending)), pending := []);
    var r := p.(arrived := stock);
    assert r.(timer := false, published := MergeAll(ids, r.published, Sort(r.pending)), pending := []) == merged.(arrived := stock);
    assert Snapshot(merged.(arrived := stock), page, terminal) == Snapshot(merged, page, terminal);
  }

  lemma EnqueueArrives<T(!new)>(ids: T -> set<string>, p: Publication<T>, stock: seq<T>, page: int, items: seq<T>, order: nat)
    ensures var q := Enqueue(ids, p, page, false, items, order, false, false);
            && q.arrived == p.arrived + items
            && Enqueue(ids, p.(arrived := stock), page, false, items, order, false, false) == q.(arrived := stock + items)
  {
    var r := p.(arrived := stock);
    var queued := Queued(ids, p, items, order, false);
    assert Queued(ids, r, items, order, false) == queued.(arrived := stock + items);
    if Unseen(ids, p.known, items) != [] && p.last.None? {
      FlushArrives(ids, queued, stock + items, page, None);
    }
  }

  lemma EnqueueFirstOf<T(!new)>(ids: T -> set<string>, p: Publication<T>, stock: seq<T>, page: int, items: seq<T>, order: nat)
    requires Sound(ids, p) && FirstOf(ids, p, stock)
    ensures FirstOf(ids, Enqueue(ids, p, page, false, items, order, false, false), stock + items)
  {
    var r := p.(arrived := stock);
    assert Sound(ids, r);
    EnqueueRepresents(ids, r, page, items, order, false, false);
    EnqueueArrives(ids, p, stock, page, items, order);
  }

  lemma FlushFirstOf<T(!new)>(ids: T -> set<string>, p: Publication<T>, stock: seq<T>, page: int, terminal: Option<Terminal>)
    requires Sound(ids, p) && FirstOf(ids, p, stock)
    ensures var q := Flush(ids, p, page, false, terminal); q.arrived == p.arrived && FirstOf(ids, q, stock)
  {
    var r := p.(arrived := stock);
    FlushRepresents(ids, r, page, terminal);
    FlushArrives(ids, p, stock, page, terminal);
  }

  lemma DiscardFirstOf<T(!new)>(ids: T -> set<string>, p: Publication<T>)
    requires Sound(ids, p)
    ensures var q := Discard(ids, p); FirstOf(ids, q, Gathered(q))
  {
    var q := Discard(ids, p);
    DiscardSound(ids, p);
    UnseenKeepsAll(ids, {}, Gathered(q));
    IdsAllConcat(ids, q.published, Flatten(q.pending));
  }

  /** Since `n` arrivals were in, the collected items are the first sightings of what stayed then and arrived later. */
  ghost predicate Since<T(!new)>(ids: T -> set<string>, stayed: seq<T>, n: nat, p: Publication<T>) {
    n <= |p.arrived| && FirstOf(ids, p, stayed + p.arrived[n..])
  }

  lemma SuffixGrows<T>(stayed: seq<T>, arrived: seq<T>, n: nat, items: seq<T>)
    requires n <= |arrived|
    ensures stayed + arrived[n..] + items == stayed + (arrived + items)[n..]
  {
  }

  lemma ReplySince<T(!new)>(ids: T -> set<string>, stayed: seq<T>, n: nat, p: Publication<T>, q: Publication<T>, items: seq<T>)
    requires n <= |p.arrived| && q.arrived == p.arrived + items && FirstOf(ids, q, stayed + p.arrived[n..] + items)
    ensures Since(ids, stayed, n, q)
  {
    SuffixGrows(stayed, p.arrived, n, items);
  }

  lemma FinalReplySince<T(!new)>(ids: T -> set<string>, setup: Setup<T>, stayed: seq<T>, n: nat, p: Publication<T>,
                                 items: seq<T>, index: nat)
    requires Sound(ids, p) && Since(ids, stayed, n, p)
    ensures Since(ids, stayed, n, Enqueue(ids, p, setup.page, false, items, index, false, false))
  {
    var stock := stayed + p.arrived[n..];
    EnqueueFirstOf(ids, p, stock, setup.page, items, index);
    EnqueueArrives(ids, p, stock, setup.page, items, index);
    ReplySince(ids, stayed, n, p, Enqueue(ids, p, setup.page, false, items, index, false, false), items);
  }

  lemma FlushSince<T(!new)>(ids: T -> set<string>, stayed: seq<T>, n: nat, p: Publication<T>, page: int, terminal: Option<Terminal>)
    requires Sound(ids, p) && Since(ids, stayed, n, p)
    ensures Since(ids, stayed, n, Flush(ids, p, page, false, terminal))
  {
    FlushFirstOf(ids, p, stayed + p.arrived[n..], page, terminal);
  }

  /** What the states after the discard have in common. */
  ghost predicate Following<T(!new)>(ids: T -> set<string>, setup: Setup<T>, stayed: seq<T>, n: nat, s: State<T>) {
    && s.answer.Some? && !Keeps(setup, s.answer.value.page)
    && (!s.aborted ==> Since(ids, stayed, n, s.pub))
  }

  /** A continuation leaves the publication alone, or flushes it with the final metadata. */
  lemma ResumeFlushes<T(!new)>(ids: T -> set<string>, setup: Setup<T>, s: State<T>)
    requires PhaseOk(setup, s) && !s.aborted && s.answer.Some? && !Keeps(setup, s.answer.value.page)
    ensures var t := OnResume(ids, setup, s);
            && t.answer == s.answer && t.aborted == s.aborted
            && (t.pub == s.pub || exists terminal :: t.pub == Flush(ids, s.pub, setup.page, false, terminal))
  {
    if s.phase == AwaitFinal && Idle(s.final.value) {
      var terminal := TerminalOf(setup, s.answer.value, Answers(s.final.value.outcomes), s.budget.truncated);
      assert OnResume(ids, setup, s).pub == Flush(ids, s.pub, setup.page, false, Some(terminal));
    }
  }

  lemma FinishFollowing<T(!new)>(ids: T -> set<string>, setup: Setup<T>, stayed: seq<T>, n: nat, s: State<T>)
    requires Inv(ids, setup, s) && Following(ids, setup, stayed, n, s) && !s.aborted
    ensures Following(ids, setup, stayed, n, OnResume(ids, setup, s))
  {
    ResumeFlushes(ids, setup, s);
    var t := OnResume(ids, setup, s);
    if t.pub != s.pub {
      var terminal :| t.pub == Flush(ids, s.pub, setup.page, false, terminal);
      FlushSince(ids, stayed, n, s.pub, setup.page, terminal);
    }
  }

  lemma FinalFollowing<T(!new)>(ids: T -> set<string>, setup: Setup<T>, stayed: seq<T>, n: nat, s: State<T>,
                                index: nat, outcome: Outcome<T>)
    requires Inv(ids, setup, s) && Following(ids, setup, stayed, n, s) && !s.aborted
    ensures Following(ids, setup, stayed, n, OnFinalReply(ids, setup, s, index, outcome))
  {
    FinalReplySince(ids, setup, stayed, n, s.pub, outcome.items, index);
  }

  /** Replies of the abandoned phase are not handed on any more. */
  lemma AbandonedReply<T(!new)>(ids: T -> set<string>, setup: Setup<T>, s: State<T>, index: nat, outcome: Outcome<T>)
    requires PhaseOk(setup, s) && s.answer.Some? && !Keeps(setup, s.answer.value.page)
    ensures OnSpeculativeReply(ids, setup, s, index, outcome).pub == s.pub
  {
  }

  lemma StepFollowing<T(!new)>(ids: T -> set<string>, setup: Setup<T>, stayed: seq<T>, n: nat, s: State<T>, e: Event<T>)
    requires Inv(ids, setup, s) && Following(ids, setup, stayed, n, s)
    ensures Following(ids, setup, stayed, n, Step(ids, setup, s, e))
  {
    if !s.aborted {
      match e
      case SpeculativeReply(index, outcome) => AbandonedReply(ids, setup, s, index, outcome);
      case FinalReply(index, outcome) => FinalFollowing(ids, setup, stayed, n, s, index, outcome);
      case SemanticReply(_) =>
      case TimerFires => FlushSince(ids, stayed, n, s.pub, setup.page, None);
      case Abort =>
      case Resume => FinishFollowing(ids, setup, stayed, n, s);
    }
  }

  lemma {:induction false} RunFollowing<T(!new)>(ids: T -> set<string>, setup: Setup<T>, stayed: seq<T>, n: nat,
                                                 before: seq<Event<T>>, after: seq<Event<T>>)
    requires Following(ids, setup, stayed, n, Run(ids, setup, before))
    ensures Following(ids, setup, stayed, n, Run(ids, setup, before + after))
  {
    if after == [] {
      assert before + after == before;
    } else {
      var front, e := after[..|after| - 1], after[|after| - 1];
      RunFollowing(ids, setup, stayed, n, before, front);
      RunInv(ids, setup, before + front);
      assert before + after == before + front + [e];
      RunSnoc(ids, setup, before + front, e);
      StepFollowing(ids, setup, stayed, n, Run(ids, setup, before + front), e);
    }
  }

  lemma DiscardingAnswerFollows<T(!new)>(ids: T -> set<string>, setup: Setup<T>, s: State<T>, a: SemanticAnswer<T>)
    requires Sound(ids, s.pub) && Discards(setup, s, a)
    ensures var d := Step(ids, setup, s, SemanticReply(a));
            Following(ids, setup, Gathered(d.pub), |d.pub.arrived|, d)
  {
    var p := WithPage(ids, setup, s.pub, a.page);
    WithPageSound(ids, setup, s.pub, a.page);
    DiscardFirstOf(ids, p);
    var d := Step(ids, setup, s, SemanticReply(a));
    assert d.pub == Discard(ids, p);
    assert Gathered(d.pub) + d.pub.arrived[|d.pub.arrived|..] == Gathered(d.pub);
  }

  /** A discarding run that returns returns exactly the first sightings of what stayed after the discard, followed by
      what the final phase brought. */
  lemma {:induction false} DiscardingResult<T(!new)>(ids: T -> set<string>, setup: Setup<T>, before: seq<Event<T>>,
                                                     a: SemanticAnswer<T>, after: seq<Event<T>>)
    requires Discards(setup, Run(ids, setup, before), a)
    requires Run(ids, setup, before + [SemanticReply(a)] + after).phase.Returned?
    ensures var d, t := Run(ids, setup, before + [SemanticReply(a)]), Run(ids, setup, before + [SemanticReply(a)] + after);
            && |d.pub.arrived| <= |t.pub.arrived|
            && multiset(t.phase.result.items)
               == multiset(Unseen(ids, {}, Gathered(d.pub) + t.pub.arrived[|d.pub.arrived|..]))
  {
    var start := before + [SemanticReply(a)];
    RunInv(ids, setup, before);
    RunSnoc(ids, setup, before, SemanticReply(a));
    DiscardingAnswerFollows(ids, setup, Run(ids, setup, before), a);
    var d := Run(ids, setup, start);
    RunFollowing(ids, setup, Gathered(d.pub), |d.pub.arrived|, start, after);
    RunInv(ids, setup, start + after);
    var t := Run(ids, setup, start + after);
    ReturnedState(ids, setup, t);
    ReturnedIsNotAborted(ids, setup, t);
    assert t.pub.published + Flatten(t.pub.pending) == t.pub.published;
  }

  lemma ReturnedIsNotAborted<T(!new)>(ids: T -> set<string>, setup: Setup<T>, s: State<T>)
    requires Inv(ids, setup, s) && s.phase.Returned?
    ensures !s.aborted
  {
  }

  /** Everything that stayed or came later is linked by a chain of shared identities to a returned item: what a
      discarding run can lose is only the speculation thrown away and answer items that duplicated it. */
  lemma {:induction false} RemainingIsRepresented<T(!new)>(ids: T -> set<string>, setup: Setup<T>, before: seq<Event<T>>,
                                                           a: SemanticAnswer<T>, after: seq<Event<T>>, k: nat)
    returns (path: seq<nat>)
    requires Discards(setup, Run(ids, setup, before), a)
    requires Run(ids, setup, before + [SemanticReply(a)] + after).phase.Returned?
    requires var d, t := Run(ids, setup, before + [SemanticReply(a)]), Run(ids, setup, before + [SemanticReply(a)] + after);
             |d.pub.arrived| <= |t.pub.arrived| && k < |Gathered(d.pub) + t.pub.arrived[|d.pub.arrived|..]|
    ensures var d, t := Run(ids, setup, before + [SemanticReply(a)]), Run(ids, setup, before + [SemanticReply(a)] + after);
            var stock := Gathered(d.pub) + t.pub.arrived[|d.pub.arrived|..];
            LeadsToSighting(ids, stock, k, path) && stock[path[|path| - 1]] in t.phase.result.items
  {
    var d, t := Run(ids, setup, before + [SemanticReply(a)]), Run(ids, setup, before + [SemanticReply(a)] + after);
    var stock := Gathered(d.pub) + t.pub.arrived[|d.pub.arrived|..];
    DiscardingResult(ids, setup, before, a, after);
    path := SightingIsReturned(ids, stock, k, t.phase.result.items);
  }

  lemma {:induction false} SightingIsReturned<T(!new)>(ids: T -> set<string>, stock: seq<T>, k: nat, items: seq<T>)
    returns (path: seq<nat>)
    requires k < |stock| && multiset(items) == multiset(Unseen(ids, {}, stock))
    ensures LeadsToSighting(ids, stock, k, path) && stock[path[|path| - 1]] in items
  {
    path := LinkedToSighting(ids, stock, k);
    var last := path[|path| - 1];
    UnseenIsSightings(ids, stock);
    SightingsExact(ids, stock, last);
    var at := Sightings(ids, stock);
    var i :| 0 <= i < |at| && at[i] == last;
    assert Select(stock, at)[i] == stock[last];
    assert stock[last] in multiset(items);
  }
}
