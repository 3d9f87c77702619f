/** One run of a search, step by step, that discards its speculation and loses an item of the semantic answer with it. */
module SearchLoss {
  import opened Prelude
  import opened Dedup
  import opened SearchPublication
  import opened AddonPool
  import opened SearchMachine

  // ---------------------------------------------------------------- the search

  /** Items 1 and 2 are the same title. */
  function Tag(n: int): set<string> {
    if n == 0 then {"first"} else {"second"}
  }

  const PAGE: SemanticPage<int> := SemanticPage([2], [], "", ["series"], 1, false, false)

  function Plan(page: Option<SemanticPage<int>>): (seq<string>, string) {
    if page.Some? then (["series"], "query") else (["movie", "series"], "query")
  }

  const EXAMPLE: Setup<int> := Setup(["movie", "series"], "query", 1, 30, true, Plan)

  const ANSWER: SemanticAnswer<int> := SemanticAnswer(Some(PAGE), false)

  function Brings(items: seq<int>): Outcome<int> {
    Outcome(items, false, false)
  }

  // ---------------------------------------------------------------- its states

  const SHOWN: SearchResult<int> := SearchResult([0], [], [], 1, false, false)

  function Publishing(timer: bool, sequence: nat, known: set<string>, pending: seq<Batch<int>>, arrived: seq<int>,
                      page: Option<SemanticPage<int>>): Publication<int>
  {
    Publication([0], page, Some(SHOWN), timer, sequence, known, pending, [SHOWN], arrived)
  }

  function Guess(inFlight: set<nat>, outcomes: seq<Option<Outcome<int>>>, aborted: bool): Pool<int> {
    Pool(["movie", "series"], "query", 2, inFlight, outcomes, aborted, [0, 1])
  }

  const BOTH: seq<Option<Outcome<int>>> := [Some(Brings([0])), Some(Brings([1]))]

  function Again(inFlight: set<nat>, outcomes: seq<Option<Outcome<int>>>): Pool<int> {
    Pool(["series"], "query", 1, inFlight, outcomes, false, [0])
  }

  const S0: State<int> :=
    State(Empty(), Budget(14, false), Guess({0, 1}, [None, None], false), None, None, false, AwaitSemantic)
  const S1: State<int> :=
    State(Publishing(false, 1, {"first"}, [], [0], None), Budget(14, false),
          Guess({1}, [Some(Brings([0])), None], false), None, None, false, AwaitSemantic)
  const S2: State<int> :=
    State(Publishing(true, 2, {"first", "second"}, [Batch(1, 1, [1], true)], [0, 1], None), Budget(14, false),
          Guess({}, BOTH, false), None, None, false, AwaitSemantic)
  const S3: State<int> :=
    State(Publishing(false, 2, {"first"}, [], [0, 1, 2], Some(PAGE)), Budget(14, false),
          Guess({}, BOTH, true), None, Some(ANSWER), false, AwaitDrain)
  const S4: State<int> :=
    State(Publishing(false, 2, {"first"}, [], [0, 1, 2], Some(PAGE)), Budget(13, false),
          Guess({}, BOTH, true), Some(Again({0}, [None])), Some(ANSWER), false, AwaitFinal)
  const S5: State<int> := S4.(final := Some(Again({}, [Some(Brings([]))])))

  // ---------------------------------------------------------------- its steps

  lemma OneItem(known: set<string>, x: int)
    ensures IdsAll(Tag, [x]) == Tag(x)
    ensures Unseen(Tag, known, [x]) == if Tag(x) * known == {} then [x] else []
  {
    assert [x][..0] == [];
    assert IdsAll(Tag, []) == {};
    assert Unseen(Tag, known, []) == [];
    assert known + {} == known;
    if Tag(x) * known == {} {
      assert Tag(x) !! known;
    }
  }

  lemma Launched()
    ensures Start(EXAMPLE) == S0
  {
    var p := Unstarted<int>(["movie", "series"], "query", 2);
    assert p.outcomes == [None, None];
    assert DispatchAll(p, 0) == p;
    assert DispatchAll(p, 1) == p.(nextIndex := 1, inFlight := {0}, dispatched := [0]);
    assert DispatchAll(p, 2) == p.(nextIndex := 2, inFlight := {0, 1}, dispatched := [0, 1]);
  }

  /** The first batch is published as it is. */
  lemma FirstBatch<T(!new)>(ids: T -> set<string>, b: Batch<T>)
    requires |b.items| == 1
    ensures MergeAll(ids, [], Sort([b])) == b.items
  {
    assert [b][..0] == [] && b.items[..0] == [];
    assert Sort([b]) == [] + [b];
    assert [] + [b] == [b];
    assert Flatten([b]) == [] + b.items;
    MergeAllAppends(ids, [], [b]);
  }

  const QUEUED: Publication<int> := Publication([], None, None, false, 1, {"first"}, [Batch(0, 0, [0], true)], [], [0])

  lemma FirstQueued()
    ensures Queued(Tag, Empty(), [0], 0, true) == QUEUED
    ensures Unseen(Tag, {}, [0]) == [0]
  {
    OneItem({}, 0);
  }

  lemma FirstFlushed(p: Publication<int>)
    requires p == QUEUED
    ensures Flush(Tag, p, 1, false, None) == S1.pub
  {
    FirstBatch(Tag, p.pending[0]);
    assert p.pending == [p.pending[0]];
  }

  lemma FirstShown(p: Publication<int>, items: seq<int>)
    requires p == Empty() && items == [0]
    ensures Enqueue(Tag, p, 1, false, items, 0, false, true) == S1.pub
  {
    FirstQueued();
    FirstFlushed(QUEUED);
  }

  lemma Step1()
    ensures Step(Tag, EXAMPLE, S0, SpeculativeReply(0, Brings([0]))) == S1
  {
    FirstShown(Empty(), [0]);
    FirstReply(S0.spec, Brings([0]));
  }

  lemma FirstReply(p: Pool<int>, outcome: Outcome<int>)
    requires p == S0.spec && outcome == Brings([0])
    ensures Reply(p, 0, outcome) == S1.spec
  {
  }

  lemma SecondQueued(p: Publication<int>, items: seq<int>)
    requires p == S1.pub && items == [1]
    ensures Enqueue(Tag, p, 1, false, items, 1, false, true) == S2.pub
  {
    OneItem(p.known, 1);
    assert Tag(1) * p.known == {};
    assert p.arrived + items == [0, 1];
  }

  lemma SecondReply(p: Pool<int>, outcome: Outcome<int>)
    requires p == S1.spec && outcome == Brings([1])
    ensures Reply(p, 1, outcome) == S2.spec
  {
    assert p.outcomes[1 := Some(outcome)] == BOTH;
    assert p.inFlight - {1} == {};
  }

  lemma Step2()
    ensures Step(Tag, EXAMPLE, S1, SpeculativeReply(1, Brings([1]))) == S2
  {
    SecondQueued(S1.pub, [1]);
    SecondReply(S1.spec, Brings([1]));
  }

  lemma Step3()
    ensures Step(Tag, EXAMPLE, S2, SemanticReply(ANSWER)) == S3
  {
    OneItem({"first", "second"}, 2);
    OneItem({}, 0);
    var batches := S2.pub.pending;
    assert batches[..0] == [];
    assert Kept(batches) == [];
    assert EXAMPLE.refine(Some(PAGE)) == (["series"], "query");
    assert ["series"] != ["movie", "series"];
    assert !Keeps(EXAMPLE, ANSWER.page);
    assert IdsAll(Tag, Flatten<int>([])) == {};
  }

  lemma Step4()
    ensures Step(Tag, EXAMPLE, S3, Resume) == S4
  {
    var p := Unstarted<int>(["series"], "query", 1);
    assert p.outcomes == [None];
    assert DispatchAll(p, 0) == p;
    assert DispatchAll(p, 1) == p.(nextIndex := 1, inFlight := {0}, dispatched := [0]);
  }

  lemma Step5()
    ensures Step(Tag, EXAMPLE, S4, FinalReply(0, Brings([]))) == S5
  {
    assert Unseen(Tag, {"first"}, []) == [] && IdsAll(Tag, []) == {};
    assert Reply(S4.final.value, 0, Brings([])) == S5.final.value;
  }

  lemma Step6()
    ensures var s := Step(Tag, EXAMPLE, S5, Resume);
            s.phase.Returned? && s.phase.result.items == [0] && s.pub.arrived == [0, 1, 2]
  {
    assert MergeAll(Tag, [0], Sort<int>([])) == [0];
  }

  // ---------------------------------------------------------------- the run

  function Events(): seq<Event<int>> {
    [SpeculativeReply(0, Brings([0])), SpeculativeReply(1, Brings([1])), SemanticReply(ANSWER), Resume,
     FinalReply(0, Brings([])), Resume]
  }

  lemma RunOneMore<T(!new)>(ids: T -> set<string>, setup: Setup<T>, e: seq<Event<T>>, n: nat)
    requires n < |e|
    ensures Run(ids, setup, e[..n + 1]) == Step(ids, setup, Run(ids, setup, e[..n]), e[n])
  {
    assert e[..n] + [e[n]] == e[..n + 1];
    RunSnoc(ids, setup, e[..n], e[n]);
  }

  lemma RunUpToThree(e: seq<Event<int>>)
    requires e == Events()
    ensures Run(Tag, EXAMPLE, e[..3]) == S3
  {
    Launched();
    assert e[..0] == [];
    RunOneMore(Tag, EXAMPLE, e, 0);
    Step1();
    RunOneMore(Tag, EXAMPLE, e, 1);
    Step2();
    RunOneMore(Tag, EXAMPLE, e, 2);
    Step3();
  }

  lemma RunUpToFive(e: seq<Event<int>>)
    requires e == Events()
    ensures Run(Tag, EXAMPLE, e[..5]) == S5
  {
    RunUpToThree(e);
    RunOneMore(Tag, EXAMPLE, e, 3);
    Step4();
    RunOneMore(Tag, EXAMPLE, e, 4);
    Step5();
  }

  /** The run returns with one item; the answer's item 2 arrived, and no returned item shares an identity with it. */
  lemma ArrivalCanVanish(e: seq<Event<int>>)
    requires e == Events()
    ensures var s := Run(Tag, EXAMPLE, e);
            && s.phase.Returned? && s.phase.result.items == [0] && s.pub.arrived == [0, 1, 2]
            && Tag(2) !! IdsAll(Tag, s.phase.result.items)
  {
    RunUpToFive(e);
    RunOneMore(Tag, EXAMPLE, e, 5);
    assert e[..6] == e;
    Step6();
    OneItem({}, 0);
  }
}
