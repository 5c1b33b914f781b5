module BatchGenerator {
  // The continuous-batching token generator of compute/batch_generator.go.
  //
  // Logits are an abstract type L, sampler states an abstract type S. A cache is the
  // history of tokens already fed to the model and the number of slots they take, and the
  // model is a function of that history. A sequence's logits processors and sampler belong
  // to it alone.

  import opened Wrappers

  type Token = int

  // Go's int32 conversion.
  function Int32(t: int): int {
    (t + 0x8000_0000) % 0x1_0000_0000 - 0x8000_0000
  }

  // The 32-bit number with the same low bits.
  lemma Int32Truncates(t: int)
    ensures -0x8000_0000 <= Int32(t) < 0x8000_0000
    ensures exists k: int :: t == Int32(t) + k * 0x1_0000_0000
  {
    var u := t + 0x8000_0000;
    assert t == Int32(t) + u / 0x1_0000_0000 * 0x1_0000_0000;
  }

  function Int32All(ts: seq<Token>): (r: seq<Token>)
    ensures |r| == |ts| && forall i :: 0 <= i < |ts| ==> r[i] == Int32(ts[i])
  {
    seq(|ts|, i requires 0 <= i < |ts| => Int32(ts[i]))
  }

  // The slots of a cache are its length: the tokens fed, and the left padding of a prefill
  // shared with longer prompts.
  datatype Cache = Cache(tokens: seq<Token>, width: int)

  const NEW_CACHE := Cache([], 0)

  // One row of a batched forward: the cache, then the tokens fed now.
  datatype Row = Row(cache: Cache, fed: seq<Token>)

  // decode and prefill are the optional BatchDecoder and BatchPrefiller capabilities.
  datatype Model<!L> = Model(
    forward: seq<Token> -> L,
    eos: Token,
    decode: Option<seq<Row> -> seq<L>>,
    prefill: Option<seq<Row> -> seq<L>>)

  // A batched forward returns one row per sequence.
  ghost predicate Shaped<L>(m: Model<L>) {
    && (m.decode.Some? ==> forall rows: seq<Row> :: |m.decode.value(rows)| == |rows|)
    && (m.prefill.Some? ==> forall rows: seq<Row> :: |m.prefill.value(rows)| == |rows|)
  }

  // The capabilities' contracts. A decoded row agrees with Forward when the cohort is
  // synchronized, one token each on caches of one length; a prefilled row does when every
  // cache is fresh.
  ghost predicate BatchAgrees<L>(m: Model<L>) {
    && Shaped(m)
    && (m.decode.Some? ==> DecodeContract(m.forward, m.decode.value))
    && (m.prefill.Some? ==> PrefillContract(m.forward, m.prefill.value))
  }

  ghost predicate DecodeContract<L>(forward: seq<Token> -> L, decode: seq<Row> -> seq<L>) {
    forall rows: seq<Row> ::
      |decode(rows)| == |rows| && (Synchronized(rows) ==> RowsAgree(forward, decode, rows))
  }

  ghost predicate PrefillContract<L>(forward: seq<Token> -> L, prefill: seq<Row> -> seq<L>) {
    forall rows: seq<Row> ::
      |prefill(rows)| == |rows| && (Fresh(rows) ==> RowsAgree(forward, prefill, rows))
  }

  ghost predicate RowsAgree<L>(forward: seq<Token> -> L, batched: seq<Row> -> seq<L>, rows: seq<Row>) {
    && |batched(rows)| == |rows|
    && forall i :: 0 <= i < |rows| ==> batched(rows)[i] == forward(rows[i].cache.tokens + rows[i].fed)
  }

  predicate Synchronized(rows: seq<Row>) {
    forall i :: 0 <= i < |rows| ==> |rows[i].fed| == 1 && rows[i].cache.width == rows[0].cache.width
  }

  predicate Fresh(rows: seq<Row>) {
    forall i :: 0 <= i < |rows| ==> rows[i].cache == NEW_CACHE
  }

  datatype Sampling<!L, !S> = Sampling(procs: seq<L -> L>, sample: (S, L) -> (Token, S))

  function Processed<L>(procs: seq<L -> L>, logits: L): L
    decreases |procs|
  {
    if procs == [] then logits else Processed(procs[1..], procs[0](logits))
  }

  // Every processor runs once, in order, on what the one before it left.
  ghost predicate Stages<L>(procs: seq<L -> L>, logits: L, stages: seq<L>) {
    && |stages| == |procs| + 1 && stages[0] == logits
    && forall i :: 0 <= i < |procs| ==> stages[i + 1] == procs[i](stages[i])
  }

  lemma {:induction false} ProcessedInOrder<L>(procs: seq<L -> L>, logits: L, stages: seq<L>)
    requires Stages(procs, logits, stages)
    ensures Processed(procs, logits) == stages[|procs|]
    decreases |procs|
  {
    if procs != [] {
      assert stages[1] == procs[0](stages[0]);
      forall i | 0 <= i < |procs| - 1
        ensures stages[1..][i + 1] == procs[1..][i](stages[1..][i])
      {
        assert stages[i + 1 + 1] == procs[i + 1](stages[i + 1]);
      }
      ProcessedInOrder(procs[1..], procs[0](logits), stages[1..]);
    }
  }

  datatype Request<!L, !S> = Request(
    tokens: seq<Token>,
    maxTokens: int,
    sampling: Sampling<L, S>,
    seed: S,
    cache: Option<Cache>)

  datatype BgSeq<!L, !S> = BgSeq(
    pending: seq<Token>,
    generated: int,
    maxTokens: int,
    offset: int,
    sampling: Sampling<L, S>,
    state: S,
    cache: Cache,
    finished: bool)

  datatype Finish = Running | Stop | Length

  datatype TokenResult = TokenResult(uid: int, token: Token, finish: Finish, promptCache: Option<Cache>)

  datatype StepOutcome = Results(results: seq<TokenResult>) | Failed

  type Active<!L, !S> = map<int, BgSeq<L, S>>

  // The prefix-cache hit a request comes with.
  function Hit<L, S>(req: Request<L, S>): Cache {
    if req.cache.Some? then req.cache.value else NEW_CACHE
  }

  // The sequence a request starts as.
  function Started<L, S>(req: Request<L, S>): BgSeq<L, S> {
    BgSeq(Int32All(req.tokens), 0, req.maxTokens, 0, req.sampling, req.seed, Hit(req), false)
  }

  function FinishOf(eos: Token, maxTokens: int, token: Token, generated: int): Finish {
    if token == eos then Stop
    else if maxTokens > 0 && generated >= maxTokens then Length
    else Running
  }

  // A sequence after its pending tokens were fed and the logits consumed, with the token.
  function Consumed<L, S>(m: Model<L>, s: BgSeq<L, S>, logits: L, advance: int): (BgSeq<L, S>, Token) {
    var (token, state) := s.sampling.sample(s.state, Processed(s.sampling.procs, logits));
    (s.(pending := [Int32(token)],
        generated := s.generated + 1,
        offset := s.offset + advance,
        state := state,
        cache := Cache(s.cache.tokens + s.pending, s.cache.width + advance),
        finished := s.finished || FinishOf(m.eos, s.maxTokens, token, s.generated + 1) != Running),
     token)
  }

  function ResultOf<L, S>(m: Model<L>, uid: int, s: BgSeq<L, S>, logits: L, advance: int): TokenResult {
    var (after, token) := Consumed(m, s, logits, advance);
    var finish := FinishOf(m.eos, s.maxTokens, token, s.generated + 1);
    TokenResult(uid, token, finish, if finish == Running then None else Some(after.cache))
  }

  // ---------------------------------------------------------------------------
  // Which sequences a step visits, and by which forward

  // The live UIDs below `bound`, ascending.
  function LiveBelow<L, S>(active: Active<L, S>, bound: int): seq<int>
    decreases bound
  {
    if bound <= 0 then []
    else LiveBelow(active, bound - 1) + if IsLive(active, bound - 1) then [bound - 1] else []
  }

  predicate IsLive<L, S>(active: Active<L, S>, uid: int) {
    uid in active && !active[uid].finished
  }

  datatype Path = Decode | Prefill | Single

  // Every visited sequence has one pending token, at one offset.
  predicate Lockstep<L, S>(active: Active<L, S>, live: seq<int>)
    requires Visits(active, live)
  {
    forall i :: 0 <= i < |live| ==>
      |active[live[i]].pending| == 1 && active[live[i]].offset == active[live[0]].offset
  }

  // Every visited sequence is still at offset zero, and some prompt has several tokens.
  predicate Admission<L, S>(active: Active<L, S>, live: seq<int>)
    requires Visits(active, live)
  {
    && (forall i :: 0 <= i < |live| ==> active[live[i]].offset == 0)
    && exists i :: 0 <= i < |live| && |active[live[i]].pending| > 1
  }

  // live lists sequences of the active set, each once and in ascending order.
  predicate Visits<L, S>(active: Active<L, S>, live: seq<int>) {
    && (forall i :: 0 <= i < |live| ==> live[i] in active)
    && forall i, j :: 0 <= i < j < |live| ==> live[i] < live[j]
  }

  lemma VisitsSnoc<L, S>(active: Active<L, S>, live: seq<int>, uid: int)
    requires Visits(active, live) && uid in active && forall i :: 0 <= i < |live| ==> live[i] < uid
    ensures Visits(active, live + [uid])
  {
  }

  lemma {:induction false} LiveBelowAscends<L, S>(active: Active<L, S>, bound: int)
    ensures var live := LiveBelow(active, bound);
            && (forall uid :: uid in live <==> 0 <= uid < bound && IsLive(active, uid))
            && Visits(active, live)
    decreases bound
  {
    hide Visits;
    if bound > 0 {
      LiveBelowAscends(active, bound - 1);
      var before := LiveBelow(active, bound - 1);
      assert forall i :: 0 <= i < |before| ==> before[i] in before;
      if IsLive(active, bound - 1) {
        VisitsSnoc(active, before, bound - 1);
      } else {
        assert before + [] == before;
      }
    } else {
      VisitsNone(active);
    }
  }

  lemma VisitsNone<L, S>(active: Active<L, S>)
    ensures Visits(active, [])
  {
  }

  function PathOf<L, S>(m: Model<L>, active: Active<L, S>, live: seq<int>): Path
    requires Visits(active, live)
  {
    if m.decode.Some? && |live| >= 2 && Lockstep(active, live) then Decode
    else if m.prefill.Some? && |live| >= 2 && Admission(active, live) then Prefill
    else Single
  }

  function RowsOf<L, S>(active: Active<L, S>, live: seq<int>): (rows: seq<Row>)
    requires Visits(active, live)
    ensures |rows| == |live|
  {
    seq(|live|, i requires 0 <= i < |live| => Row(active[live[i]].cache, active[live[i]].pending))
  }

  // The width a ragged cohort is padded to.
  function Width<L, S>(active: Active<L, S>, live: seq<int>): int
    requires Visits(active, live)
    decreases |live|
  {
    if live == [] then 0
    else
      var before := Width(active, live[..|live| - 1]);
      var mine := |active[live[|live| - 1]].pending|;
      if mine > before then mine else before
  }

  // The logits the i-th visited sequence gets, and how far its offset moves.
  function LogitsOf<L, S>(m: Model<L>, active: Active<L, S>, live: seq<int>, i: int): L
    requires Visits(active, live) && 0 <= i < |live|
    requires Shaped(m)
  {
    match PathOf(m, active, live)
    case Decode => m.decode.value(RowsOf(active, live))[i]
    case Prefill => m.prefill.value(RowsOf(active, live))[i]
    case Single => m.forward(active[live[i]].cache.tokens + active[live[i]].pending)
  }

  function AdvanceOf<L, S>(m: Model<L>, active: Active<L, S>, live: seq<int>, i: int): int
    requires Visits(active, live) && 0 <= i < |live|
  {
    match PathOf(m, active, live)
    case Decode => 1
    case Prefill => Width(active, live)
    case Single => |active[live[i]].pending|
  }

  // The first k visited sequences consumed their logits; nothing else changed.
  ghost predicate Advanced<L, S>(m: Model<L>, before: Active<L, S>, after: Active<L, S>, live: seq<int>, k: int)
    requires Shaped(m) && Visits(before, live) && 0 <= k <= |live|
  {
    && after.Keys == before.Keys
    && (forall i :: 0 <= i < k ==>
          after[live[i]] ==
            Consumed(m, before[live[i]], LogitsOf(m, before, live, i), AdvanceOf(m, before, live, i)).0)
    && forall uid :: uid in before && uid !in live[..k] ==> after[uid] == before[uid]
  }

  ghost predicate Reports<L, S>(m: Model<L>, before: Active<L, S>, live: seq<int>, results: seq<TokenResult>)
    requires Shaped(m) && Visits(before, live)
  {
    && |results| <= |live|
    && forall i :: 0 <= i < |results| ==>
         results[i] ==
           ResultOf(m, live[i], before[live[i]], LogitsOf(m, before, live, i), AdvanceOf(m, before, live, i))
  }

  lemma NoneAdvanced<L, S>(m: Model<L>, active: Active<L, S>, live: seq<int>)
    requires Shaped(m) && Visits(active, live)
    ensures Advanced(m, active, active, live, 0)
  {
  }

  // One more sequence of the visit consumes its logits; it had not been touched before.
  lemma AdvanceOne<L, S>(m: Model<L>, before: Active<L, S>, mid: Active<L, S>, live: seq<int>, i: nat)
    requires Shaped(m) && Visits(before, live) && i < |live|
    requires Advanced(m, before, mid, live, i)
    ensures live[i] in mid && mid[live[i]] == before[live[i]]
    ensures var next := Consumed(m, before[live[i]], LogitsOf(m, before, live, i), AdvanceOf(m, before, live, i)).0;
            Advanced(m, before, mid[live[i] := next], live, i + 1)
  {
    var uid := live[i];
    assert uid in before && uid !in live[..i];
    assert mid[uid] == before[uid];
    assert live[..i + 1] == live[..i] + [live[i]];
  }

  // How many visited sequences a step advances when forwards over `faulty` sequences fail:
  // a batched forward is all or nothing, single forwards stop at the first failure.
  function Reach<L, S>(m: Model<L>, active: Active<L, S>, live: seq<int>, faulty: set<int>): (k: nat)
    requires Visits(active, live)
    ensures k <= |live|
  {
    if PathOf(m, active, live) == Single then FirstFault(live, faulty)
    else if exists i :: 0 <= i < |live| && live[i] in faulty then 0
    else |live|
  }

  function FirstFault(live: seq<int>, faulty: set<int>): (k: nat)
    ensures k <= |live|
    ensures forall i :: 0 <= i < k ==> live[i] !in faulty
    ensures k < |live| ==> live[k] in faulty
    decreases |live|
  {
    if live == [] then 0
    else
      var k := FirstFault(live[..|live| - 1], faulty);
      if k < |live| - 1 || live[k] in faulty then k else k + 1
  }

  class BatchGenerator<L(0), S> {
    const model: Model<L>
    var nextUID: int
    var active: Active<L, S>

    constructor (model: Model<L>)
      requires Shaped(model)
      ensures Valid() && this.model == model
      ensures nextUID == 0 && active.Keys == {}
    {
      this.model := model;
      nextUID, active := 0, map[];
    }

    ghost predicate Valid()
      reads this
    {
      && Shaped(model)
      && 0 <= nextUID
      && forall uid :: uid in active ==> 0 <= uid < nextUID
    }

    // Returns the UID, or None for an empty prompt.
    method Insert(req: Request<L, S>) returns (uid: Option<int>)
      requires Valid()
      modifies this
      ensures Valid()
      ensures req.tokens == [] ==> uid == None && active == old(active) && nextUID == old(nextUID)
      ensures req.tokens != [] ==>
                && uid == Some(old(nextUID)) && nextUID == old(nextUID) + 1
                && active == old(active)[old(nextUID) := Started(req)]
    {
      if |req.tokens| == 0 {
        return None;
      }
      var pending := Int32All(req.tokens);
      var cache := if req.cache.Some? then req.cache.value else NEW_CACHE;
      var id := nextUID;
      nextUID := nextUID + 1;
      active := active[id := BgSeq(pending, 0, req.maxTokens, 0, req.sampling, req.seed, cache, false)];
      return Some(id);
    }

    // One step. A forward that would run a sequence in `faulty` fails instead.
    method Step(faulty: set<int>) returns (outcome: StepOutcome)
      requires Valid()
      modifies this`active
      ensures Valid()
      ensures var live := LiveBelow(old(active), nextUID);
              && Visits(old(active), live)
              && var k := Reach(model, old(active), live, faulty);
              && Advanced(model, old(active), active, live, k)
              && (outcome.Results? <==> k == |live|)
              && (outcome.Results? ==>
                    |outcome.results| == |live| && Reports(model, old(active), live, outcome.results))
    {
      hide Consumed, ResultOf, Lockstep, Admission, LogitsOf, AdvanceOf, Advanced, Reports;
      var live := [];
      for uid := 0 to nextUID
        invariant live == LiveBelow(active, uid)
      {
        if uid in active && !active[uid].finished {
          live := live + [uid];
        }
      }
      LiveBelowAscends(active, nextUID);
      var batched, answer := TryBatchedStep(live, faulty);
      if batched {
        return answer;
      }
      batched, answer := TryBatchedPrefill(live, faulty);
      if batched {
        return answer;
      }
      outcome := StepOneByOne(live, faulty);
    }

    // The loop of Step that runs a forward per sequence and stops at the first failure.
    method StepOneByOne(live: seq<int>, faulty: set<int>) returns (outcome: StepOutcome)
      requires Valid() && Visits(active, live) && PathOf(model, active, live) == Single
      modifies this`active
      ensures Valid()
      ensures var k := Reach(model, old(active), live, faulty);
              && Advanced(model, old(active), active, live, k)
              && (outcome.Results? <==> k == |live|)
              && (outcome.Results? ==>
                    |outcome.results| == |live| && Reports(model, old(active), live, outcome.results))
    {
      hide Consumed, ResultOf, PathOf;
      ghost var was := active;
      var results := [];
      NoneAdvanced(model, was, live);
      for i := 0 to |live|
        invariant Valid() && |results| == i <= FirstFault(live, faulty)
        invariant Advanced(model, was, active, live, i)
        invariant Reports(model, was, live, results)
      {
        var uid := live[i];
        if uid in faulty {
          return Failed;
        }
        AdvanceOne(model, was, active, live, i);
        var s := active[uid];
        var advance := |s.pending|;
        var logits := model.forward(s.cache.tokens + s.pending);
        var result := Consume(uid, logits, advance);
        results := results + [result];
      }
      return Results(results);
    }

    method TryBatchedStep(live: seq<int>, faulty: set<int>) returns (batched: bool, outcome: StepOutcome)
      requires Valid() && Visits(active, live)
      modifies this`active
      ensures Valid()
      ensures batched <==> PathOf(model, old(active), live) == Decode
      ensures !batched ==> active == old(active)
      ensures batched ==>
                var k := Reach(model, old(active), live, faulty);
                && Advanced(model, old(active), active, live, k)
                && (outcome.Results? <==> k == |live|)
                && (outcome.Results? ==>
                      |outcome.results| == |live| && Reports(model, old(active), live, outcome.results))
    {
      if model.decode.None? || |live| < 2 {
        return false, Failed;
      }
      var inStep := ScanLockstep(live);
      if !inStep {
        return false, Failed;
      }
      var rows := GatherRows(live);
      if exists i :: 0 <= i < |live| && live[i] in faulty {
        return true, Failed;
      }
      var logits := model.decode.value(rows);
      assert PathOf(model, active, live) == Decode;
      var results := ConsumeRows(live, logits, 1);
      return true, Results(results);
    }

    // The scan of tryBatchedStep: does every sequence have one pending token, at one offset?
    method ScanLockstep(live: seq<int>) returns (inStep: bool)
      requires Visits(active, live) && |live| > 0
      ensures inStep <==> Lockstep(active, live)
    {
      var offset := active[live[0]].offset;
      for i := 0 to |live|
        invariant forall j :: 0 <= j < i ==>
          |active[live[j]].pending| == 1 && active[live[j]].offset == offset
      {
        var s := active[live[i]];
        if |s.pending| != 1 || s.offset != offset {
          return false;
        }
      }
      return true;
    }

    // The loop that ends both batched paths: row i is consumed by the i-th sequence.
    method ConsumeRows(live: seq<int>, logits: seq<L>, advance: int) returns (results: seq<TokenResult>)
      requires Valid() && Visits(active, live) && |logits| == |live|
      requires forall i :: 0 <= i < |live| ==>
                 logits[i] == LogitsOf(model, active, live, i) && advance == AdvanceOf(model, active, live, i)
      modifies this`active
      ensures Valid() && |results| == |live|
      ensures Advanced(model, old(active), active, live, |live|) && Reports(model, old(active), live, results)
    {
      hide LogitsOf, AdvanceOf, Consumed, ResultOf;
      ghost var was := active;
      results := [];
      NoneAdvanced(model, was, live);
      for i := 0 to |live|
        invariant Valid() && |results| == i
        invariant Advanced(model, was, active, live, i)
        invariant Reports(model, was, live, results)
      {
        AdvanceOne(model, was, active, live, i);
        var result := Consume(live[i], logits[i], advance);
        results := results + [result];
      }
    }

    method GatherRows(live: seq<int>) returns (rows: seq<Row>)
      requires Visits(active, live)
      ensures rows == RowsOf(active, live)
    {
      rows := [];
      for i := 0 to |live|
        invariant rows == RowsOf(active, live)[..i]
      {
        var s := active[live[i]];
        rows := rows + [Row(s.cache, s.pending)];
      }
    }

    // The scan of tryBatchedPrefill: is the cohort all at offset zero with a longer prompt
    // among it, and how wide is it?
    method ScanAdmission(live: seq<int>) returns (admits: bool, width: int)
      requires Visits(active, live)
      ensures admits <==> Admission(active, live)
      ensures admits ==> width == Width(active, live)
    {
      width := 0;
      var multi := false;
      for i := 0 to |live|
        invariant forall j :: 0 <= j < i ==> active[live[j]].offset == 0
        invariant multi <==> exists j :: 0 <= j < i && |active[live[j]].pending| > 1
        invariant width == Width(active, live[..i])
      {
        var s := active[live[i]];
        if s.offset != 0 {
          return false, width;
        }
        assert live[..i + 1][..i] == live[..i];
        if |s.pending| > width {
          width := |s.pending|;
        }
        if |s.pending| > 1 {
          multi := true;
        }
      }
      assert live[..|live|] == live;
      return multi, width;
    }

    method TryBatchedPrefill(live: seq<int>, faulty: set<int>) returns (batched: bool, outcome: StepOutcome)
      requires Valid() && Visits(active, live)
      requires PathOf(model, active, live) != Decode
      modifies this`active
      ensures Valid()
      ensures batched <==> PathOf(model, old(active), live) == Prefill
      ensures !batched ==> active == old(active)
      ensures batched ==>
                var k := Reach(model, old(active), live, faulty);
                && Advanced(model, old(active), active, live, k)
                && (outcome.Results? <==> k == |live|)
                && (outcome.Results? ==>
                      |outcome.results| == |live| && Reports(model, old(active), live, outcome.results))
    {
      if model.prefill.None? || |live| < 2 {
        return false, Failed;
      }
      var admits, width := ScanAdmission(live);
      if !admits {
        return false, Failed;
      }
      var rows := GatherRows(live);
      if exists i :: 0 <= i < |live| && live[i] in faulty {
        return true, Failed;
      }
      var logits := model.prefill.value(rows);
      assert PathOf(model, active, live) == Prefill;
      var results := ConsumeRows(live, logits, width);
      return true, Results(results);
    }

    // The forward has already appended the pending tokens to the cache, in `advance` slots.
    method Consume(uid: int, logits: L, advance: int) returns (result: TokenResult)
      requires uid in active
      modifies this`active
      ensures active == old(active)[uid := Consumed(model, old(active[uid]), logits, advance).0]
      ensures result == ResultOf(model, uid, old(active[uid]), logits, advance)
    {
      var s := active[uid];
      var current := logits;
      for i := 0 to |s.sampling.procs|
        invariant Processed(s.sampling.procs[i..], current) == Processed(s.sampling.procs, logits)
      {
        current := s.sampling.procs[i](current);
      }
      var (token, state) := s.sampling.sample(s.state, current);
      s := s.(cache := Cache(s.cache.tokens + s.pending, s.cache.width + advance));
      s := s.(offset := s.offset + advance, pending := [Int32(token)], generated := s.generated + 1, state := state);
      result := TokenResult(uid, token, Running, None);
      if token == model.eos {
        result := result.(finish := Stop);
      } else if s.maxTokens > 0 && s.generated >= s.maxTokens {
        result := result.(finish := Length);
      }
      if result.finish != Running {
        s := s.(finished := true);
        result := result.(promptCache := Some(s.cache));
      }
      active := active[uid := s];
    }

    method Remove(uid: int) returns (cache: Option<Cache>)
      requires Valid()
      modifies this`active
      ensures Valid()
      ensures active == old(active) - {uid}
      ensures cache == if uid in old(active) then Some(old(active[uid]).cache) else None
    {
      if uid !in active {
        assert active - {uid} == active;
        return None;
      }
      cache := Some(active[uid].cache);
      active := active - {uid};
    }

    method HasActive() returns (has: bool)
      ensures has <==> active.Keys != {}
    {
      assert active.Keys != {} <==> |active| > 0;
      return |active| > 0;
    }
  }

  // ---------------------------------------------------------------------------
  // What a sequence emits alone

  function Fed<L, S>(req: Request<L, S>): seq<Token> {
    Hit(req).tokens + Int32All(req.tokens)
  }

  // Autoregressive decoding of one request: its first n tokens, and its sampler's state.
  function Solo<L, S>(m: Model<L>, req: Request<L, S>, n: nat): (seq<Token>, S) {
    if n == 0 then ([], req.seed)
    else
      var (tokens, state) := Solo(m, req, n - 1);
      var logits := m.forward(Fed(req) + Int32All(tokens));
      var (token, next) := req.sampling.sample(state, Processed(req.sampling.procs, logits));
      (tokens + [token], next)
  }

  // The last of these tokens is the end-of-sequence token or uses up the budget.
  predicate Ends<L, S>(m: Model<L>, req: Request<L, S>, tokens: seq<Token>) {
    && tokens != []
    && (tokens[|tokens| - 1] == m.eos || (req.maxTokens > 0 && |tokens| >= req.maxTokens))
  }

  // No token follows such a one.
  ghost predicate EndsOnce<L, S>(m: Model<L>, req: Request<L, S>, tokens: seq<Token>) {
    forall k :: 0 <= k < |tokens| ==> !Ends(m, req, tokens[..k])
  }

  // The bookkeeping of a sequence that emitted `tokens`, whatever its logits were. The
  // cache is as long as the hit it started from and everything fed since.
  ghost predicate Orderly<L, S>(m: Model<L>, req: Request<L, S>, tokens: seq<Token>, s: BgSeq<L, S>) {
    && EndsOnce(m, req, tokens)
    && s.generated == |tokens| && s.maxTokens == req.maxTokens
    && (s.finished <==> Ends(m, req, tokens))
    && s.cache.width == Hit(req).width + s.offset
    && |s.pending| >= 1
    && 0 <= s.offset
    && if tokens == [] then s == Started(req) else s.offset > 0 && |s.pending| == 1
  }

  // s is the state the request alone would be in after emitting `tokens`.
  ghost predicate Tracks<L, S>(m: Model<L>, req: Request<L, S>, tokens: seq<Token>, s: BgSeq<L, S>) {
    && tokens == Solo(m, req, |tokens|).0
    && s.sampling == req.sampling && s.state == Solo(m, req, |tokens|).1
    && s.cache.tokens + s.pending == Fed(req) + Int32All(tokens)
  }

  lemma StartedTracks<L, S>(m: Model<L>, req: Request<L, S>)
    requires req.tokens != []
    ensures Orderly(m, req, [], Started(req)) && Tracks(m, req, [], Started(req))
  {
  }

  lemma Int32Appends(ts: seq<Token>, t: Token)
    ensures Int32All(ts + [t]) == Int32All(ts) + [Int32(t)]
  {
  }

  lemma ConsumeOrderly<L, S>(m: Model<L>, req: Request<L, S>, tokens: seq<Token>, s: BgSeq<L, S>, logits: L, advance: int)
    requires Orderly(m, req, tokens, s) && !s.finished && advance >= 1
    ensures var (after, token) := Consumed(m, s, logits, advance);
            Orderly(m, req, tokens + [token], after)
  {
    var (after, token) := Consumed(m, s, logits, advance);
    var longer := tokens + [token];
    assert longer[..|tokens|] == tokens;
    forall k | 0 <= k < |longer|
      ensures !Ends(m, req, longer[..k])
    {
      if k < |tokens| {
        assert longer[..k] == tokens[..k];
      }
    }
  }

  // Consuming the logits Forward would give advances a sequence exactly as alone.
  lemma ConsumeTracks<L, S>(m: Model<L>, req: Request<L, S>, tokens: seq<Token>, s: BgSeq<L, S>, logits: L, advance: int)
    requires Tracks(m, req, tokens, s) && logits == m.forward(s.cache.tokens + s.pending)
    ensures var (after, token) := Consumed(m, s, logits, advance);
            Tracks(m, req, tokens + [token], after)
  {
    var (after, token) := Consumed(m, s, logits, advance);
    Int32Appends(tokens, token);
    assert after.cache.tokens + after.pending == (s.cache.tokens + s.pending) + [Int32(token)];
    assert Fed(req) + Int32All(tokens + [token]) == Fed(req) + Int32All(tokens) + [Int32(token)];
  }

  // ---------------------------------------------------------------------------
  // When a batched forward is promised to agree

  function OnFit<L>(forward: seq<Token> -> L, fit: seq<Row> -> bool, wrong: L): seq<Row> -> seq<L> {
    (rows: seq<Row>) =>
      if fit(rows) then seq(|rows|, i requires 0 <= i < |rows| => forward(rows[i].cache.tokens + rows[i].fed))
      else seq(|rows|, i => wrong)
  }

  // The batched decode also takes cohorts whose prefix-cache hits differ in length, because
  // their offsets agree. Its rows then agree with Forward for every model that keeps the
  // decode contract exactly when the cohort is synchronized.
  lemma DecodeAgreesIffSynchronized<L(!new)>(forward: seq<Token> -> L, rows: seq<Row>, a: L, b: L)
    requires a != b
    ensures Synchronized(rows) <==>
              forall decode: seq<Row> -> seq<L> ::
                DecodeContract(forward, decode) ==> RowsAgree(forward, decode, rows)
  {
    if !Synchronized(rows) {
      var wrong := if forward(rows[0].cache.tokens + rows[0].fed) == a then b else a;
      var decode := OnFit(forward, rs => Synchronized(rs), wrong);
      assert DecodeContract(forward, decode);
      assert decode(rows)[0] == wrong;
      assert !RowsAgree(forward, decode, rows);
    }
  }

  // The batched prefill path also takes sequences that carry a prefix-cache hit, because
  // Insert leaves their offset at zero. Its rows then agree with Forward for every model
  // that keeps the prefill contract exactly when no row carries a cache.
  lemma PrefillAgreesIffFresh<L(!new)>(forward: seq<Token> -> L, rows: seq<Row>, a: L, b: L)
    requires a != b
    ensures Fresh(rows) <==>
              forall prefill: seq<Row> -> seq<L> ::
                PrefillContract(forward, prefill) ==> RowsAgree(forward, prefill, rows)
  {
    if !Fresh(rows) {
      var wrong := if forward(rows[0].cache.tokens + rows[0].fed) == a then b else a;
      var prefill := OnFit(forward, rs => Fresh(rs), wrong);
      assert PrefillContract(forward, prefill);
      assert prefill(rows)[0] == wrong;
      assert !RowsAgree(forward, prefill, rows);
    }
  }

  // ---------------------------------------------------------------------------
  // Runs

  datatype Event<!L, !S> = Insert(req: Request<L, S>) | Step | Remove(uid: int)

  // A generator, with every request it ever admitted and the tokens each emitted.
  datatype State<!L, !S> = State(
    next: int,
    active: Active<L, S>,
    requests: map<int, Request<L, S>>,
    emitted: map<int, seq<Token>>)

  ghost predicate Emits<L, S>(m: Model<L>, before: State<L, S>, after: State<L, S>, live: seq<int>)
    requires Shaped(m) && Visits(before.active, live)
    requires forall i :: 0 <= i < |live| ==> live[i] in before.emitted
  {
    && after.emitted.Keys == before.emitted.Keys
    && (forall i :: 0 <= i < |live| ==>
          after.emitted[live[i]] == before.emitted[live[i]] +
            [Consumed(m, before.active[live[i]], LogitsOf(m, before.active, live, i),
                      AdvanceOf(m, before.active, live, i)).1])
    && forall uid :: uid in before.emitted && uid !in live ==> after.emitted[uid] == before.emitted[uid]
  }

  // One event, as the generator's methods specify it. A step is error-free.
  ghost predicate Next<L, S>(m: Model<L>, before: State<L, S>, event: Event<L, S>, after: State<L, S>)
    requires Shaped(m)
  {
    match event
    case Insert(req) =>
      && req.tokens != []
      && after == State(before.next + 1, before.active[before.next := Started(req)],
                        before.requests[before.next := req], before.emitted[before.next := []])
    case Step =>
      var live := Live(before);
      && Visits(before.active, live)
      && Advanced(m, before.active, after.active, live, |live|)
      && (forall i :: 0 <= i < |live| ==> live[i] in before.emitted)
      && Emits(m, before, after, live)
      && after.next == before.next && after.requests == before.requests
    case Remove(uid) =>
      after == before.(active := before.active - {uid})
  }

  function Live<L, S>(r: State<L, S>): seq<int> {
    LiveBelow(r.active, r.next)
  }

  ghost predicate IsRun<L, S>(m: Model<L>, events: seq<Event<L, S>>, trace: seq<State<L, S>>)
    requires Shaped(m)
  {
    && |trace| == |events| + 1
    && trace[0] == State(0, map[], map[], map[])
    && forall i :: 0 <= i < |events| ==> Next(m, trace[i], events[i], trace[i + 1])
  }

  // What every run keeps, whatever the logits.
  ghost predicate InOrder<L, S>(m: Model<L>, r: State<L, S>) {
    && 0 <= r.next
    && r.requests.Keys == r.emitted.Keys
    && (forall uid :: uid in r.requests ==> 0 <= uid < r.next && EndsOnce(m, r.requests[uid], r.emitted[uid]))
    && (forall uid :: uid in r.active ==>
          uid in r.requests && Orderly(m, r.requests[uid], r.emitted[uid], r.active[uid]))
  }

  lemma LiveVisits<L, S>(m: Model<L>, r: State<L, S>)
    requires InOrder(m, r)
    ensures Visits(r.active, Live(r))
    ensures forall uid :: uid in Live(r) <==> IsLive(r.active, uid)
    ensures forall i :: 0 <= i < |Live(r)| ==> Live(r)[i] in r.active && Live(r)[i] in r.requests && IsLive(r.active, Live(r)[i])
  {
    hide LiveBelow, Orderly;
    LiveBelowAscends(r.active, r.next);
    assert forall i :: 0 <= i < |Live(r)| ==> Live(r)[i] in Live(r);
  }

  lemma NextInOrder<L, S>(m: Model<L>, before: State<L, S>, event: Event<L, S>, after: State<L, S>)
    requires Shaped(m) && InOrder(m, before) && Next(m, before, event, after)
    ensures InOrder(m, after)
  {
    match event
    case Insert(req) =>
      StartedTracks(m, req);
    case Remove(uid) =>
    case Step =>
      StepInOrder(m, before, after);
  }

  lemma StepInOrder<L, S>(m: Model<L>, before: State<L, S>, after: State<L, S>)
    requires Shaped(m) && InOrder(m, before) && Next(m, before, Step, after)
    ensures InOrder(m, after)
  {
    hide LiveBelow, LogitsOf, AdvanceOf, Consumed;
    var live := Live(before);
    LiveVisits(m, before);
    assert live[..|live|] == live;
    forall uid | uid in after.active
      ensures Orderly(m, after.requests[uid], after.emitted[uid], after.active[uid])
    {
      if uid in live {
        var i :| 0 <= i < |live| && live[i] == uid;
        StepOrderly(m, before, after, i);
      } else {
        assert after.active[uid] == before.active[uid];
        assert after.emitted[uid] == before.emitted[uid];
      }
    }
    forall uid | uid in after.requests
      ensures EndsOnce(m, after.requests[uid], after.emitted[uid])
    {
      if uid in live {
        assert uid in after.active;
      }
    }
  }

  lemma StepOrderly<L, S>(m: Model<L>, before: State<L, S>, after: State<L, S>, i: nat)
    requires Shaped(m) && InOrder(m, before) && Next(m, before, Step, after) && i < |Live(before)|
    ensures var uid := Live(before)[i];
            && uid in after.active && uid in before.requests && uid in after.emitted
            && Orderly(m, before.requests[uid], after.emitted[uid], after.active[uid])
  {
    hide LiveBelow, LogitsOf, Orderly;
    var live := Live(before);
    LiveVisits(m, before);
    AdvancePositive(m, before, i);
    ConsumeOrderly(m, before.requests[live[i]], before.emitted[live[i]], before.active[live[i]],
                   LogitsOf(m, before.active, live, i), AdvanceOf(m, before.active, live, i));
  }

  lemma AdvancePositive<L, S>(m: Model<L>, r: State<L, S>, i: nat)
    requires InOrder(m, r) && Visits(r.active, Live(r)) && i < |Live(r)|
    ensures AdvanceOf(m, r.active, Live(r), i) >= 1
  {
    WidthCovers(r.active, Live(r), i);
  }

  lemma {:induction false} WidthCovers<L, S>(active: Active<L, S>, live: seq<int>, i: nat)
    requires Visits(active, live) && i < |live|
    ensures |active[live[i]].pending| <= Width(active, live)
    decreases |live|
  {
    if i < |live| - 1 {
      WidthCovers(active, live[..|live| - 1], i);
    }
  }

  // The padded width is that of some prompt.
  lemma {:induction false} WidthIsReached<L, S>(active: Active<L, S>, live: seq<int>)
    requires Visits(active, live)
    ensures Width(active, live) >= 0
    ensures Width(active, live) > 0 ==> exists i :: 0 <= i < |live| && |active[live[i]].pending| == Width(active, live)
    decreases |live|
  {
    if live != [] {
      var init := live[..|live| - 1];
      WidthIsReached(active, init);
      if Width(active, live) == Width(active, init) > 0 {
        var i :| 0 <= i < |init| && |active[init[i]].pending| == Width(active, init);
        assert init[i] == live[i];
      }
    }
  }

  // Every cache has a slot for each token fed, and without batched prefills no other slot,
  // given that the hits have.
  ghost predicate Slotted<L, S>(m: Model<L>, r: State<L, S>) {
    forall uid :: uid in r.active ==> SlottedCache(m, r.active[uid].cache)
  }

  predicate SlottedCache<L>(m: Model<L>, c: Cache) {
    |c.tokens| <= c.width && (m.prefill.None? ==> |c.tokens| == c.width)
  }

  lemma {:induction false} CacheHoldsTheTokens<L, S>(m: Model<L>, events: seq<Event<L, S>>, trace: seq<State<L, S>>, i: nat)
    requires Shaped(m) && IsRun(m, events, trace) && i < |trace|
    requires forall k :: 0 <= k < |events| && events[k].Insert? ==> SlottedCache(m, Hit(events[k].req))
    ensures Slotted(m, trace[i])
  {
    hide Next, Slotted;
    if i == 0 {
      NewSlotted(m, trace[0]);
    } else {
      CacheHoldsTheTokens(m, events, trace, i - 1);
      RunInOrder(m, events, trace, i - 1);
      NextSlotted(m, trace[i - 1], events[i - 1], trace[i]);
    }
  }

  lemma NewSlotted<L, S>(m: Model<L>, r: State<L, S>)
    requires r == State(0, map[], map[], map[])
    ensures Slotted(m, r)
  {
  }

  lemma NextSlotted<L, S>(m: Model<L>, before: State<L, S>, event: Event<L, S>, after: State<L, S>)
    requires Shaped(m) && InOrder(m, before) && Slotted(m, before) && Next(m, before, event, after)
    requires event.Insert? ==> SlottedCache(m, Hit(event.req))
    ensures Slotted(m, after)
  {
    hide LiveBelow, LogitsOf, AdvanceOf;
    if event.Step? {
      var live := Live(before);
      LiveVisits(m, before);
      assert live[..|live|] == live;
      forall uid | uid in after.active
        ensures SlottedCache(m, after.active[uid].cache)
      {
        if uid in live {
          var i :| 0 <= i < |live| && live[i] == uid;
          AdvanceCovers(m, before, i);
        } else {
          assert after.active[uid] == before.active[uid];
        }
      }
    }
  }

  lemma AdvanceCovers<L, S>(m: Model<L>, r: State<L, S>, i: nat)
    requires InOrder(m, r) && Visits(r.active, Live(r)) && i < |Live(r)|
    ensures |r.active[Live(r)[i]].pending| <= AdvanceOf(m, r.active, Live(r), i)
    ensures m.prefill.None? ==> |r.active[Live(r)[i]].pending| == AdvanceOf(m, r.active, Live(r), i)
  {
    WidthCovers(r.active, Live(r), i);
  }

  lemma {:induction false} RunInOrder<L, S>(m: Model<L>, events: seq<Event<L, S>>, trace: seq<State<L, S>>, i: nat)
    requires Shaped(m) && IsRun(m, events, trace) && i < |trace|
    ensures InOrder(m, trace[i])
  {
    hide Next, InOrder;
    if i == 0 {
      NewInOrder(m, trace[0]);
    } else {
      RunInOrder(m, events, trace, i - 1);
      NextInOrder(m, trace[i - 1], events[i - 1], trace[i]);
    }
  }

  lemma NewInOrder<L, S>(m: Model<L>, r: State<L, S>)
    requires r == State(0, map[], map[], map[])
    ensures InOrder(m, r)
  {
  }

  // ---------------------------------------------------------------------------
  // Prefix-cache hits

  // The length of the hit a sequence came with.
  function HitWidth<L, S>(r: State<L, S>, uid: int): int {
    if uid in r.requests then Hit(r.requests[uid]).width else 0
  }

  // What must be known of the hits that came in: a batched decode runs over hits of one
  // length, a batched prefill over none.
  predicate HitsAllow<L, S>(path: Path, r: State<L, S>, live: seq<int>) {
    match path
    case Decode => forall i :: 0 <= i < |live| ==> HitWidth(r, live[i]) == HitWidth(r, live[0])
    case Prefill => forall i :: 0 <= i < |live| && live[i] in r.requests ==> Hit(r.requests[live[i]]) == NEW_CACHE
    case Single => true
  }

  predicate Safe<L, S>(m: Model<L>, r: State<L, S>) {
    Visits(r.active, Live(r)) ==> HitsAllow(PathOf(m, r.active, Live(r)), r, Live(r))
  }

  // No step runs a batched forward that the hits do not allow.
  ghost predicate SafeRun<L, S>(m: Model<L>, events: seq<Event<L, S>>, trace: seq<State<L, S>>)
    requires |trace| == |events| + 1
  {
    forall i :: 0 <= i < |events| && events[i].Step? ==> Safe(m, trace[i])
  }

  // Whether a step's batched forward is one that is promised to agree.
  predicate Fit<L, S>(m: Model<L>, r: State<L, S>)
    requires Visits(r.active, Live(r))
  {
    match PathOf(m, r.active, Live(r))
    case Decode => Synchronized(RowsOf(r.active, Live(r)))
    case Prefill => Fresh(RowsOf(r.active, Live(r)))
    case Single => true
  }

  // In every state of every run: the cache is as long as its hit and the offset together,
  // so the test of the offsets makes a batched decode synchronized exactly when the hits
  // of all live sequences have one length, and a batched prefill is over fresh caches
  // exactly when there are no hits.
  lemma SafeIffFit<L, S>(m: Model<L>, events: seq<Event<L, S>>, trace: seq<State<L, S>>, i: nat)
    requires Shaped(m) && IsRun(m, events, trace) && i < |trace|
    ensures Visits(trace[i].active, Live(trace[i]))
    ensures Safe(m, trace[i]) <==> Fit(m, trace[i])
  {
    RunInOrder(m, events, trace, i);
    LiveVisits(m, trace[i]);
    SafeFits(m, trace[i]);
  }

  lemma SafeFits<L, S>(m: Model<L>, r: State<L, S>)
    requires InOrder(m, r) && Visits(r.active, Live(r))
    ensures Safe(m, r) <==> Fit(m, r)
  {
    hide LiveBelow;
    LiveVisits(m, r);
    var live, rows := Live(r), RowsOf(r.active, Live(r));
    forall i | 0 <= i < |live|
      ensures rows[i].cache.width == HitWidth(r, live[i]) + r.active[live[i]].offset
      ensures r.active[live[i]].offset == 0 ==> rows[i].cache == Hit(r.requests[live[i]])
    {
      assert Orderly(m, r.requests[live[i]], r.emitted[live[i]], r.active[live[i]]);
    }
  }

  // As long as no request has carried a prefix-cache hit, every step is safe.
  lemma NoHitsAreSafe<L, S>(m: Model<L>, r: State<L, S>)
    requires forall uid :: uid in r.requests ==> r.requests[uid].cache.None?
    ensures Safe(m, r)
  {
  }

  // A run that takes an unsafe step: a request with a hit of three tokens and one without,
  // both with a prompt of one token, are decoded together over caches of different lengths.
  lemma HitsOfTwoLengths<L, S>(m: Model<L>, sampling: Sampling<L, S>, seed: S)
    requires Shaped(m) && m.decode.Some?
    ensures var a := Request([1], 0, sampling, seed, Some(Cache([7, 8, 9], 3)));
            var b := Request([2], 0, sampling, seed, None);
            var r := State(2, map[0 := Started(a), 1 := Started(b)], map[0 := a, 1 := b], map[0 := [], 1 := []]);
            && IsRun(m, [Insert(a), Insert(b)],
                     [State(0, map[], map[], map[]),
                      State(1, map[0 := Started(a)], map[0 := a], map[0 := []]), r])
            && Live(r) == [0, 1] && Visits(r.active, Live(r)) && PathOf(m, r.active, Live(r)) == Decode
            && !Safe(m, r) && !Fit(m, r)
  {
    var a := Request([1], 0, sampling, seed, Some(Cache([7, 8, 9], 3)));
    var b := Request([2], 0, sampling, seed, None);
    var active := map[0 := Started(a), 1 := Started(b)];
    assert LiveBelow(active, 0) == [];
    assert LiveBelow(active, 1) == [0];
    assert LiveBelow(active, 2) == [0, 1];
    var r := State(2, active, map[0 := a, 1 := b], map[0 := [], 1 := []]);
    assert HitWidth(r, 0) == 3 && HitWidth(r, 1) == 0;
    var rows := RowsOf(active, [0, 1]);
    assert rows[0].cache.width == 3 && rows[1].cache.width == 0;
  }

  // ---------------------------------------------------------------------------
  // Batching is invisible

  // Every request ever admitted has emitted what it emits alone, as far as it got.
  ghost predicate Transparent<L, S>(m: Model<L>, r: State<L, S>) {
    && InOrder(m, r)
    && (forall uid :: uid in r.requests ==> r.emitted[uid] == Solo(m, r.requests[uid], |r.emitted[uid]|).0)
    && (forall uid :: uid in r.active ==> Tracks(m, r.requests[uid], r.emitted[uid], r.active[uid]))
  }

  lemma LogitsAgree<L, S>(m: Model<L>, r: State<L, S>, i: nat)
    requires BatchAgrees(m) && Visits(r.active, Live(r)) && i < |Live(r)| && Fit(m, r)
    ensures var s := r.active[Live(r)[i]];
            LogitsOf(m, r.active, Live(r), i) == m.forward(s.cache.tokens + s.pending)
  {
    hide LiveBelow;
    var rows := RowsOf(r.active, Live(r));
    assert rows[i].cache.tokens + rows[i].fed == r.active[Live(r)[i]].cache.tokens + r.active[Live(r)[i]].pending;
  }

  lemma NextTransparent<L, S>(m: Model<L>, before: State<L, S>, event: Event<L, S>, after: State<L, S>)
    requires BatchAgrees(m) && Transparent(m, before) && Next(m, before, event, after)
    requires event.Step? ==> Safe(m, before)
    ensures Transparent(m, after)
  {
    NextInOrder(m, before, event, after);
    match event
    case Insert(req) =>
      StartedTracks(m, req);
    case Remove(uid) =>
    case Step =>
      StepTransparent(m, before, after);
  }

  lemma StepTransparent<L, S>(m: Model<L>, before: State<L, S>, after: State<L, S>)
    requires BatchAgrees(m) && Transparent(m, before) && Next(m, before, Step, after)
    requires Safe(m, before) && InOrder(m, after)
    ensures Transparent(m, after)
  {
    hide LiveBelow, LogitsOf, AdvanceOf, Consumed, Solo, Orderly;
    var live := Live(before);
    LiveVisits(m, before);
    assert live[..|live|] == live;
    forall uid | uid in after.active
      ensures Tracks(m, after.requests[uid], after.emitted[uid], after.active[uid])
    {
      if uid in live {
        var i :| 0 <= i < |live| && live[i] == uid;
        StepTracks(m, before, after, i);
      } else {
        assert after.active[uid] == before.active[uid];
        assert after.emitted[uid] == before.emitted[uid];
      }
    }
    forall uid | uid in after.requests
      ensures after.emitted[uid] == Solo(m, after.requests[uid], |after.emitted[uid]|).0
    {
      if uid in live {
        assert uid in after.active;
      }
    }
  }

  lemma StepTracks<L, S>(m: Model<L>, before: State<L, S>, after: State<L, S>, i: nat)
    requires BatchAgrees(m) && Transparent(m, before) && Next(m, before, Step, after)
    requires Safe(m, before) && i < |Live(before)|
    ensures var uid := Live(before)[i];
            && uid in after.active && uid in before.requests && uid in after.emitted
            && Tracks(m, before.requests[uid], after.emitted[uid], after.active[uid])
  {
    hide LiveBelow, Tracks, Orderly, Safe, Fit;
    var live := Live(before);
    LiveVisits(m, before);
    SafeFits(m, before);
    LogitsAgree(m, before, i);
    ConsumeTracks(m, before.requests[live[i]], before.emitted[live[i]], before.active[live[i]],
                  LogitsOf(m, before.active, live, i), AdvanceOf(m, before.active, live, i));
  }

  // Batching is invisible: for every interleaving of Insert, Step and Remove whose steps
  // are safe, every request ever admitted has emitted a prefix of what it emits alone, with
  // nothing after a finish.
  lemma {:induction false} BatchingIsInvisible<L, S>(m: Model<L>, events: seq<Event<L, S>>, trace: seq<State<L, S>>, i: nat)
    requires BatchAgrees(m) && IsRun(m, events, trace) && SafeRun(m, events, trace) && i < |trace|
    ensures Transparent(m, trace[i])
  {
    hide Next, Transparent, Safe;
    if i == 0 {
      NewTransparent(m, trace[0]);
    } else {
      BatchingIsInvisible(m, events, trace, i - 1);
      NextTransparent(m, trace[i - 1], events[i - 1], trace[i]);
    }
  }

  lemma NewTransparent<L, S>(m: Model<L>, r: State<L, S>)
    requires r == State(0, map[], map[], map[])
    ensures Transparent(m, r)
  {
  }

  // Without prefix-cache hits no run needs a condition.
  lemma InvisibleWithoutHits<L, S>(m: Model<L>, events: seq<Event<L, S>>, trace: seq<State<L, S>>, i: nat)
    requires BatchAgrees(m) && IsRun(m, events, trace) && i < |trace|
    requires forall k :: 0 <= k < |events| && events[k].Insert? ==> events[k].req.cache.None?
    ensures SafeRun(m, events, trace) && Transparent(m, trace[i])
  {
    hide Transparent, Next, Safe;
    forall k | 0 <= k < |events| && events[k].Step?
      ensures Safe(m, trace[k])
    {
      NoHitsCome(m, events, trace, k);
      NoHitsAreSafe(m, trace[k]);
    }
    BatchingIsInvisible(m, events, trace, i);
  }

  lemma {:induction false} NoHitsCome<L, S>(m: Model<L>, events: seq<Event<L, S>>, trace: seq<State<L, S>>, i: nat)
    requires Shaped(m) && IsRun(m, events, trace) && i < |trace|
    requires forall k :: 0 <= k < |events| && events[k].Insert? ==> events[k].req.cache.None?
    ensures forall uid :: uid in trace[i].requests ==> trace[i].requests[uid].cache.None?
  {
    if i > 0 {
      NoHitsCome(m, events, trace, i - 1);
      assert Next(m, trace[i - 1], events[i - 1], trace[i]);
    }
  }

  // A successful step reports exactly one token per live UID, in ascending UID order, and
  // the finish reason it reports is the one that takes the sequence out of later steps.
  lemma OneTokenPerLive<L, S>(
      m: Model<L>, before: Active<L, S>, after: Active<L, S>, bound: int, results: seq<TokenResult>)
    requires Shaped(m) && forall uid :: uid in before ==> 0 <= uid < bound
    requires Visits(before, LiveBelow(before, bound))
    requires var live := LiveBelow(before, bound);
             && |results| == |live| && Reports(m, before, live, results)
             && Advanced(m, before, after, live, |live|)
    ensures forall i, j :: 0 <= i < j < |results| ==> results[i].uid < results[j].uid
    ensures forall uid :: IsLive(before, uid) <==> exists i :: 0 <= i < |results| && results[i].uid == uid
    ensures forall i :: 0 <= i < |results| ==>
              && results[i].uid in after
              && (results[i].finish == Running <==> IsLive(after, results[i].uid))
              && (results[i].promptCache.Some? <==> results[i].finish != Running)
  {
    var live := LiveBelow(before, bound);
    LiveBelowAscends(before, bound);
    forall uid | IsLive(before, uid)
      ensures exists i :: 0 <= i < |results| && results[i].uid == uid
    {
      assert uid in live;
      var i :| 0 <= i < |live| && live[i] == uid;
      assert results[i].uid == uid;
    }
    forall i | 0 <= i < |results|
      ensures IsLive(before, results[i].uid) && results[i].uid in after
      ensures results[i].finish == Running <==> IsLive(after, results[i].uid)
    {
      assert live[i] in live;
    }
  }

  // Why a sequence is said to finish, for every successful step: "stop" for the
  // end-of-sequence token and only for it, "length" for any other token that uses up a
  // positive budget. The token reported is the one the sequence has emitted last.
  lemma FinishIsExact<L, S>(m: Model<L>, before: State<L, S>, after: State<L, S>, results: seq<TokenResult>, i: nat)
    requires Shaped(m) && InOrder(m, before) && Next(m, before, Step, after)
    requires Visits(before.active, Live(before)) && Reports(m, before.active, Live(before), results)
    requires i < |results|
    ensures var r := results[i];
            && r.uid == Live(before)[i] && r.uid in before.requests && r.uid in after.emitted && r.uid in after.active
            && after.emitted[r.uid] == before.emitted[r.uid] + [r.token]
            && var budget := before.requests[r.uid].maxTokens;
            && (r.finish == Stop <==> r.token == m.eos)
            && (r.finish == Length <==> r.token != m.eos && 0 < budget <= |after.emitted[r.uid]|)
            && r.promptCache == if r.finish == Running then None else Some(after.active[r.uid].cache)
  {
    hide LiveBelow, LogitsOf, AdvanceOf, Processed;
    LiveVisits(m, before);
    var uid := Live(before)[i];
    assert Orderly(m, before.requests[uid], before.emitted[uid], before.active[uid]);
  }

  // The end-of-sequence token is emitted at most once, as the last token; a positive budget
  // is never exceeded; and a sequence is live exactly until one of the two has happened.
  lemma StopsExactlyOnce<L, S>(m: Model<L>, events: seq<Event<L, S>>, trace: seq<State<L, S>>, i: nat, uid: int)
    requires Shaped(m) && IsRun(m, events, trace) && i < |trace| && uid in trace[i].requests
    ensures uid in trace[i].emitted
    ensures var tokens, budget := trace[i].emitted[uid], trace[i].requests[uid].maxTokens;
            && (forall k :: 0 <= k < |tokens| - 1 ==> tokens[k] != m.eos)
            && (budget > 0 ==> |tokens| <= budget)
            && (uid in trace[i].active ==> (IsLive(trace[i].active, uid) <==> m.eos !in tokens && !(0 < budget <= |tokens|)))
  {
    RunInOrder(m, events, trace, i);
    var req, tokens := trace[i].requests[uid], trace[i].emitted[uid];
    EndsAtTheEnd(m, req, tokens);
    if uid in trace[i].active {
      assert Orderly(m, req, tokens, trace[i].active[uid]);
    }
  }

  lemma EndsAtTheEnd<L, S>(m: Model<L>, req: Request<L, S>, tokens: seq<Token>)
    requires EndsOnce(m, req, tokens)
    ensures forall k :: 0 <= k < |tokens| - 1 ==> tokens[k] != m.eos
    ensures req.maxTokens > 0 ==> |tokens| <= req.maxTokens
    ensures Ends(m, req, tokens) <==> m.eos in tokens || 0 < req.maxTokens <= |tokens|
  {
    forall k | 0 <= k < |tokens| - 1
      ensures tokens[k] != m.eos
    {
      assert !Ends(m, req, tokens[..k + 1]);
    }
    if tokens != [] {
      assert !Ends(m, req, tokens[..|tokens| - 1]);
    }
  }

  // A failing step leaves the sequences as they were exactly when the batched path ran or
  // the first single forward failed. Otherwise the tokens already consumed are lost with it.
  lemma FailedStepLosesNothingIff<L, S>(
      m: Model<L>, before: Active<L, S>, after: Active<L, S>, live: seq<int>, faulty: set<int>)
    requires Shaped(m) && Visits(before, live)
    requires var k := Reach(m, before, live, faulty); k < |live| && Advanced(m, before, after, live, k)
    ensures after == before <==> PathOf(m, before, live) != Single || live[0] in faulty
  {
    var k := Reach(m, before, live, faulty);
    if k == 0 {
      assert forall uid :: uid in before ==> after[uid] == before[uid];
      assert after == before;
    } else {
      assert after[live[0]].generated == before[live[0]].generated + 1;
    }
  }

  // ---------------------------------------------------------------------------
  // The throughput path

  lemma FinishedStaysFinished<L, S>(m: Model<L>, before: Active<L, S>, after: Active<L, S>, bound: int, uid: int)
    requires Shaped(m) && Visits(before, LiveBelow(before, bound))
    requires Advanced(m, before, after, LiveBelow(before, bound), |LiveBelow(before, bound)|)
    ensures !IsLive(before, uid) ==> !IsLive(after, uid)
  {
    var live := LiveBelow(before, bound);
    if uid in before && !IsLive(before, uid) {
      LiveBelowAscends(before, bound);
      assert uid !in live && live[..|live|] == live;
      assert after[uid] == before[uid];
    }
  }

  // Where a step taken in lockstep, or a batched prefill, leaves every sequence it visits.
  function ReachedOffset<L, S>(m: Model<L>, before: Active<L, S>, live: seq<int>): int
    requires Visits(before, live)
  {
    if live == [] then 0 else before[live[0]].offset + AdvanceOf(m, before, live, 0)
  }

  lemma StepReaches<L, S>(m: Model<L>, before: Active<L, S>, after: Active<L, S>, live: seq<int>, j: nat)
    requires Shaped(m) && Visits(before, live) && j < |live|
    requires Lockstep(before, live) || PathOf(m, before, live) == Prefill
    requires Advanced(m, before, after, live, |live|)
    ensures live[j] in after
    ensures |after[live[j]].pending| == 1 && after[live[j]].offset == ReachedOffset(m, before, live)
  {
  }

  // After any batched prefill, and after any step taken in lockstep, the cohort that is
  // still live is in lockstep.
  lemma StepLockstep<L, S>(m: Model<L>, before: Active<L, S>, after: Active<L, S>, bound: int)
    requires Shaped(m) && Visits(before, LiveBelow(before, bound)) && Visits(after, LiveBelow(after, bound))
    requires forall uid :: uid in before ==> 0 <= uid < bound
    requires var live := LiveBelow(before, bound);
             && (Lockstep(before, live) || PathOf(m, before, live) == Prefill)
             && Advanced(m, before, after, live, |live|)
    ensures Lockstep(after, LiveBelow(after, bound))
  {
    hide LiveBelow, PathOf, ReachedOffset;
    var live, next := LiveBelow(before, bound), LiveBelow(after, bound);
    LiveBelowAscends(before, bound);
    LiveBelowAscends(after, bound);
    forall i | 0 <= i < |next|
      ensures |after[next[i]].pending| == 1 && after[next[i]].offset == ReachedOffset(m, before, live)
    {
      assert next[i] in next;
      FinishedStaysFinished(m, before, after, bound, next[i]);
      var j :| 0 <= j < |live| && live[j] == next[i];
      StepReaches(m, before, after, live, j);
    }
  }

  lemma RemoveLockstep<L, S>(active: Active<L, S>, uid: int, bound: int)
    requires Visits(active, LiveBelow(active, bound)) && Lockstep(active, LiveBelow(active, bound))
    requires Visits(active - {uid}, LiveBelow(active - {uid}, bound))
    ensures Lockstep(active - {uid}, LiveBelow(active - {uid}, bound))
  {
    var live, next := LiveBelow(active, bound), LiveBelow(active - {uid}, bound);
    LiveBelowAscends(active, bound);
    LiveBelowAscends(active - {uid}, bound);
    forall i | 0 <= i < |next|
      ensures |active[next[i]].pending| == 1 && active[next[i]].offset == active[next[0]].offset
    {
      assert next[i] in next && next[0] in next;
      assert next[i] in live && next[0] in live;
    }
  }

  ghost predicate InLockstep<L, S>(r: State<L, S>) {
    var live := Live(r);
    Visits(r.active, live) && Lockstep(r.active, live)
  }

  lemma NextLockstep<L, S>(m: Model<L>, before: State<L, S>, event: Event<L, S>, after: State<L, S>)
    requires Shaped(m) && InOrder(m, before) && Next(m, before, event, after)
    requires !event.Insert? && InLockstep(before)
    ensures InLockstep(after)
  {
    NextInOrder(m, before, event, after);
    LiveVisits(m, after);
    match event
    case Step => StepLockstep(m, before.active, after.active, after.next);
    case Remove(uid) => RemoveLockstep(before.active, uid, after.next);
  }

  // In every state of every run the batched prefill is taken exactly when the model can, two
  // or more sequences are live, none of them has emitted anything, and some prompt has more
  // than one token.
  lemma PrefillTakenIff<L, S>(m: Model<L>, r: State<L, S>)
    requires InOrder(m, r) && Visits(r.active, Live(r))
    ensures (forall i :: 0 <= i < |Live(r)| ==> Live(r)[i] in r.requests && Live(r)[i] in r.emitted)
    ensures PathOf(m, r.active, Live(r)) == Prefill
       <==> && m.prefill.Some? && |Live(r)| >= 2
            && (forall i :: 0 <= i < |Live(r)| ==> r.emitted[Live(r)[i]] == [])
            && exists i :: 0 <= i < |Live(r)| && |r.requests[Live(r)[i]].tokens| > 1
  {
    hide LiveBelow;
    LiveVisits(m, r);
    var live := Live(r);
    forall i | 0 <= i < |live|
      ensures r.emitted[live[i]] == [] <==> r.active[live[i]].offset == 0
      ensures r.emitted[live[i]] == [] ==> |r.active[live[i]].pending| == |r.requests[live[i]].tokens|
    {
      assert Orderly(m, r.requests[live[i]], r.emitted[live[i]], r.active[live[i]]);
    }
  }

  // A batched prefill brings the whole cohort into lockstep.
  lemma PrefillReachesLockstep<L, S>(m: Model<L>, before: State<L, S>, after: State<L, S>)
    requires Shaped(m) && InOrder(m, before) && Next(m, before, Step, after)
    requires PathOf(m, before.active, Live(before)) == Prefill
    ensures InLockstep(after)
  {
    NextInOrder(m, before, Step, after);
    LiveVisits(m, after);
    StepLockstep(m, before.active, after.active, after.next);
  }

  // Lockstep, once reached, lasts until the next Insert, so every later step over two or
  // more live sequences decodes them in one forward.
  lemma {:induction false} LockstepLasts<L, S>(
      m: Model<L>, events: seq<Event<L, S>>, trace: seq<State<L, S>>, start: nat, end: nat)
    requires Shaped(m) && IsRun(m, events, trace) && start <= end < |trace|
    requires InLockstep(trace[start])
    requires forall i :: start <= i < end ==> !events[i].Insert?
    ensures InLockstep(trace[end])
    ensures var live := Live(trace[end]);
            m.decode.Some? && |live| >= 2 ==> PathOf(m, trace[end].active, live) == Decode
    decreases end
  {
    if end > start {
      LockstepLasts(m, events, trace, start, end - 1);
      RunInOrder(m, events, trace, end - 1);
      NextLockstep(m, trace[end - 1], events[end - 1], trace[end]);
    }
  }

  // ---------------------------------------------------------------------------
  // Budgets

  // The tokens the live sequences below `bound` may still generate.
  function Budget<L, S>(active: Active<L, S>, bound: int): int
    decreases bound
  {
    if bound <= 0 then 0
    else Budget(active, bound - 1) + Remaining(active, bound - 1)
  }

  function Remaining<L, S>(active: Active<L, S>, uid: int): int {
    if IsLive(active, uid) then active[uid].maxTokens - active[uid].generated else 0
  }

  lemma WithinBudget<L, S>(m: Model<L>, req: Request<L, S>, tokens: seq<Token>, s: BgSeq<L, S>)
    requires Orderly(m, req, tokens, s) && s.maxTokens > 0
    ensures s.generated <= s.maxTokens
    ensures !s.finished ==> s.generated < s.maxTokens
  {
    if tokens != [] {
      var earlier := tokens[..|tokens| - 1];
      assert !Ends(m, req, earlier);
    }
  }

  // No sequence generates more than a positive maxTokens.
  lemma NeverOverBudget<L, S>(m: Model<L>, events: seq<Event<L, S>>, trace: seq<State<L, S>>, i: nat, uid: int)
    requires Shaped(m) && IsRun(m, events, trace) && i < |trace|
    requires uid in trace[i].active && trace[i].active[uid].maxTokens > 0
    ensures trace[i].active[uid].generated <= trace[i].active[uid].maxTokens
    ensures IsLive(trace[i].active, uid) ==> trace[i].active[uid].generated < trace[i].active[uid].maxTokens
  {
    RunInOrder(m, events, trace, i);
    var r := trace[i];
    WithinBudget(m, r.requests[uid], r.emitted[uid], r.active[uid]);
  }

  lemma {:induction false} BudgetsAdd<L, S>(before: Active<L, S>, after: Active<L, S>, bound: int)
    requires forall uid :: 0 <= uid < bound ==>
               Remaining(after, uid) + (if IsLive(before, uid) then 1 else 0) <= Remaining(before, uid)
    ensures Budget(after, bound) + |LiveBelow(before, bound)| <= Budget(before, bound)
    decreases bound
  {
    if bound > 0 {
      BudgetsAdd(before, after, bound - 1);
    }
  }

  // When every budget is positive, a step uses up at least one token of budget per live
  // sequence, so the total strictly decreases with every non-empty step.
  lemma StepSpendsBudget<L, S>(m: Model<L>, before: State<L, S>, after: State<L, S>)
    requires Shaped(m) && InOrder(m, before) && Next(m, before, Step, after)
    requires forall uid :: uid in before.active ==> before.active[uid].maxTokens > 0
    ensures Budget(after.active, after.next) + |Live(before)|
              <= Budget(before.active, before.next)
    ensures 0 <= Budget(after.active, after.next)
  {
    var live := Live(before);
    LiveBelowAscends(before.active, before.next);
    NextInOrder(m, before, Step, after);
    assert live[..|live|] == live;
    forall uid | 0 <= uid < before.next
      ensures Remaining(after.active, uid) + (if IsLive(before.active, uid) then 1 else 0)
                <= Remaining(before.active, uid)
      ensures 0 <= Remaining(after.active, uid)
    {
      if uid in after.active {
        WithinBudget(m, after.requests[uid], after.emitted[uid], after.active[uid]);
        WithinBudget(m, before.requests[uid], before.emitted[uid], before.active[uid]);
      }
      if IsLive(before.active, uid) {
        assert uid in live;
        var i :| 0 <= i < |live| && live[i] == uid;
      }
    }
    BudgetsAdd(before.active, after.active, before.next);
    BudgetNonNegative(after.active, after.next);
  }

  lemma {:induction false} BudgetNonNegative<L, S>(active: Active<L, S>, bound: int)
    requires forall uid :: 0 <= uid < bound ==> 0 <= Remaining(active, uid)
    ensures 0 <= Budget(active, bound)
    decreases bound
  {
    if bound > 0 {
      BudgetNonNegative(active, bound - 1);
    }
  }
}
