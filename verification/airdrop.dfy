/** The airdrop contract as a state machine, and what it pays out. */
module Airdrop {
  import opened Cosmos
  import opened Sums
  import opened Merkle

  datatype Scheduled = AtHeight(height: nat) | AtTime(time: nat) {
    predicate IsTriggered(block: Block) {
      match this
      case AtHeight(h) => h <= block.height
      case AtTime(t) => t <= block.time
    }
  }

  datatype State = State(
    owner: Option<Addr>,
    latestStage: nat,
    merkleRoots: map<nat, Digest>,
    expirations: map<nat, Expiration>,
    starts: map<nat, Scheduled>,
    claims: set<(Addr, nat)>,
    alreadyClaimed: map<nat, nat>)

  datatype Env = Env(block: Block, sender: Addr)

  datatype Msg =
    | UpdateConfig(newOwner: Option<Addr>)
    | RegisterMerkleRoot(merkleRoot: Digest, expiration: Option<Expiration>, start: Option<Scheduled>)
    | Claim(stage: nat, amount: Uint128, proof: seq<Digest>)

  /** The transfer a successful claim sends, for the stage it was claimed in. */
  datatype Payout = Payout(stage: nat, recipient: Addr, amount: nat)

  datatype Outcome = Outcome(state: State, payouts: seq<Payout>)

  /** Stages are 8-bit numbers. */
  const MAX_STAGE: nat := 255

  function Instantiate(owner: Addr): State {
    State(Some(owner), 0, map[], map[], map[], {}, map[])
  }

  function ExecuteUpdateConfig(s: State, env: Env, newOwner: Option<Addr>): Result<Outcome> {
    if s.owner != Some(env.sender) then Failure(Unauthorized)
    else Success(Outcome(s.(owner := newOwner), []))
  }

  function ExecuteRegister(s: State, env: Env, root: Digest, expiration: Option<Expiration>, start: Option<Scheduled>)
    : Result<Outcome>
  {
    if s.owner != Some(env.sender) then Failure(Unauthorized)
    else if s.latestStage >= MAX_STAGE then Failure(Overflow)
    else
      var stage := s.latestStage + 1;
      Success(Outcome(
        s.(latestStage := stage,
           merkleRoots := s.merkleRoots[stage := root],
           expirations := s.expirations[stage := if expiration.Some? then expiration.value else Never],
           starts := if start.Some? then s.starts[stage := start.value] else s.starts),
        []))
  }

  function ClaimedIn(s: State, stage: nat): nat {
    if stage in s.alreadyClaimed then s.alreadyClaimed[stage] else 0
  }

  function ExecuteClaim(sha: Hash, s: State, env: Env, stage: nat, amount: Uint128, proof: seq<Digest>)
    : Result<Outcome>
  {
    if stage in s.starts && !s.starts[stage].IsTriggered(env.block) then Failure(StageNotBegun)
    else if stage !in s.expirations then Failure(NotFound)
    else if s.expirations[stage].IsExpired(env.block) then Failure(StageExpired)
    else if (env.sender, stage) in s.claims then Failure(AlreadyClaimed)
    else if stage !in s.merkleRoots then Failure(NotFound)
    else if !Verifies(sha, s.merkleRoots[stage], env.sender, amount, proof) then Failure(VerificationFailed)
    else
      var total :- CheckedAdd(ClaimedIn(s, stage), amount);
      Success(Outcome(
        s.(claims := s.claims + {(env.sender, stage)}, alreadyClaimed := s.alreadyClaimed[stage := total]),
        [Payout(stage, env.sender, amount)]))
  }

  function Step(sha: Hash, s: State, env: Env, msg: Msg): Result<Outcome> {
    match msg
    case UpdateConfig(newOwner) => ExecuteUpdateConfig(s, env, newOwner)
    case RegisterMerkleRoot(root, expiration, start) => ExecuteRegister(s, env, root, expiration, start)
    case Claim(stage, amount, proof) => ExecuteClaim(sha, s, env, stage, amount, proof)
  }

  // ----- runs -----

  datatype Call = Call(env: Env, msg: Msg)

  datatype World = World(state: State, paid: seq<Payout>)

  function Deliver(sha: Hash, w: World, call: Call): World {
    match Step(sha, w.state, call.env, call.msg)
    case Success(o) => World(o.state, w.paid + o.payouts)
    case Failure(_) => w
  }

  function Run(sha: Hash, w: World, calls: seq<Call>): World
    decreases calls
  {
    if calls == [] then w else Run(sha, Deliver(sha, w, calls[0]), calls[1..])
  }

  /** The sum of what was paid in a stage. */
  function PaidTotal(paid: seq<Payout>, stage: nat): nat {
    if paid == [] then 0
    else
      var last := paid[|paid| - 1];
      PaidTotal(paid[..|paid| - 1], stage) + if last.stage == stage then last.amount else 0
  }

  /** Who was paid what in a stage. */
  function PaidTo(paid: seq<Payout>, stage: nat): map<Addr, nat> {
    if paid == [] then map[]
    else
      var last := paid[|paid| - 1];
      var before := PaidTo(paid[..|paid| - 1], stage);
      if last.stage == stage then before[last.recipient := last.amount] else before
  }

  /** No address appears twice in one stage. */
  ghost predicate PaidOnce(paid: seq<Payout>) {
    forall i, j :: 0 <= i < j < |paid| ==> paid[i].stage != paid[j].stage || paid[i].recipient != paid[j].recipient
  }

  ghost predicate Proven(sha: Hash, root: Digest, a: Addr, amount: nat) {
    exists proof :: Verifies(sha, root, a, amount, proof)
  }

  /** What is kept about one stage. */
  ghost predicate StageOk(sha: Hash, w: World, stage: nat) {
    var s, payees := w.state, PaidTo(w.paid, stage);
    && ClaimedIn(s, stage) == PaidTotal(w.paid, stage) == Sum(payees, Amount())
    && (forall a :: (a, stage) in s.claims <==> a in payees)
    && (forall a :: a in payees ==> stage in s.merkleRoots && Proven(sha, s.merkleRoots[stage], a, payees[a]))
  }

  ghost predicate Inv(sha: Hash, w: World) {
    && (forall stage :: stage in w.state.merkleRoots <==> 1 <= stage <= w.state.latestStage)
    && w.state.expirations.Keys == w.state.merkleRoots.Keys
    && w.state.starts.Keys <= w.state.merkleRoots.Keys
    && PaidOnce(w.paid)
    && (forall stage :: StageOk(sha, w, stage))
  }

  lemma InstantiateInv(sha: Hash, owner: Addr)
    ensures Inv(sha, World(Instantiate(owner), []))
  {
  }

  lemma PaidNext(paid: seq<Payout>, p: Payout, stage: nat)
    ensures PaidTotal(paid + [p], stage) == PaidTotal(paid, stage) + (if p.stage == stage then p.amount else 0)
    ensures PaidTo(paid + [p], stage)
         == if p.stage == stage then PaidTo(paid, stage)[p.recipient := p.amount] else PaidTo(paid, stage)
  {
    assert (paid + [p])[..|paid|] == paid;
  }

  lemma {:induction false} PayeesOf(paid: seq<Payout>, stage: nat, i: nat)
    requires i < |paid| && paid[i].stage == stage
    ensures paid[i].recipient in PaidTo(paid, stage)
    ensures PaidOnce(paid) ==> PaidTo(paid, stage)[paid[i].recipient] == paid[i].amount
  {
    if i < |paid| - 1 {
      PayeesOf(paid[..|paid| - 1], stage, i);
    }
  }

  lemma ClaimKeepsStage(sha: Hash, w: World, env: Env, stage: nat, amount: Uint128, proof: seq<Digest>, other: nat)
    requires Inv(sha, w) && ExecuteClaim(sha, w.state, env, stage, amount, proof).Success?
    ensures var o := ExecuteClaim(sha, w.state, env, stage, amount, proof).value;
            StageOk(sha, World(o.state, w.paid + o.payouts), other)
  {
    hide Sum, PaidTo, PaidTotal, PaidOnce, Verifies;
    var payees := PaidTo(w.paid, stage);
    assert StageOk(sha, w, other) && StageOk(sha, w, stage);
    PaidNext(w.paid, Payout(stage, env.sender, amount), other);
    SumInsert(payees, Amount(), env.sender, amount);
    SumAbsent(payees, Amount(), env.sender);
    assert Proven(sha, w.state.merkleRoots[stage], env.sender, amount);
  }

  lemma ClaimKeepsPaidOnce(sha: Hash, w: World, env: Env, stage: nat, amount: Uint128, proof: seq<Digest>)
    requires Inv(sha, w) && ExecuteClaim(sha, w.state, env, stage, amount, proof).Success?
    ensures PaidOnce(w.paid + [Payout(stage, env.sender, amount)])
  {
    hide Sum, PaidTo, PaidTotal, Verifies, Proven;
    assert StageOk(sha, w, stage);
    forall i | 0 <= i < |w.paid| && w.paid[i].stage == stage ensures w.paid[i].recipient != env.sender {
      PayeesOf(w.paid, stage, i);
    }
  }

  lemma OtherMessagesKeepStage(sha: Hash, w: World, call: Call, stage: nat)
    requires Inv(sha, w) && !call.msg.Claim?
    ensures StageOk(sha, Deliver(sha, w, call), stage)
  {
    hide Sum, PaidTo, PaidTotal, PaidOnce, Proven;
    assert StageOk(sha, w, stage);
    assert w.paid + [] == w.paid;
  }

  lemma DeliverKeepsInv(sha: Hash, w: World, call: Call)
    requires Inv(sha, w)
    ensures Inv(sha, Deliver(sha, w, call))
  {
    hide StageOk, PaidOnce, Verifies;
    var w' := Deliver(sha, w, call);
    forall stage ensures StageOk(sha, w', stage) {
      assert StageOk(sha, w, stage);
      match call.msg
      case Claim(claimed, amount, proof) =>
        if Step(sha, w.state, call.env, call.msg).Success? {
          ClaimKeepsStage(sha, w, call.env, claimed, amount, proof, stage);
        }
      case _ => OtherMessagesKeepStage(sha, w, call, stage);
    }
    if call.msg.Claim? && Step(sha, w.state, call.env, call.msg).Success? {
      ClaimKeepsPaidOnce(sha, w, call.env, call.msg.stage, call.msg.amount, call.msg.proof);
    } else {
      assert w.paid + [] == w.paid;
    }
  }

  lemma {:induction false} RunKeepsInv(sha: Hash, w: World, calls: seq<Call>)
    requires Inv(sha, w)
    ensures Inv(sha, Run(sha, w, calls))
    decreases calls
  {
    hide Inv, Deliver;
    if calls != [] {
      DeliverKeepsInv(sha, w, calls[0]);
      RunKeepsInv(sha, Deliver(sha, w, calls[0]), calls[1..]);
    }
  }

  // ----- soundness over runs -----

  function LeafTotal(leaves: seq<(Addr, nat)>): nat {
    if leaves == [] then 0 else leaves[0].1 + LeafTotal(leaves[1..])
  }

  /** Distinct payees, each paid the amount of a leaf of theirs, are paid at most all leaves together. */
  lemma {:induction false} WithinLeaves(payees: map<Addr, nat>, leaves: seq<(Addr, nat)>)
    requires forall a :: a in payees ==> (a, payees[a]) in leaves
    ensures Sum(payees, Amount()) <= LeafTotal(leaves)
    decreases leaves
  {
    hide Sum;
    if leaves == [] {
      assert payees == map[];
      SumEmpty(payees, Amount());
    } else {
      var (a, n) := leaves[0];
      if a in payees && payees[a] == n {
        SumRemove(payees, Amount(), a);
        WithinLeaves(payees - {a}, leaves[1..]);
      } else {
        WithinLeaves(payees, leaves[1..]);
      }
    }
  }

  lemma PayeesAreLeaves(sha: Hash, w: World, stage: nat, t: Tree)
    requires StageOk(sha, w, stage) && !Collision(sha)
    requires stage in w.state.merkleRoots && w.state.merkleRoots[stage] == Root(sha, t)
    ensures forall a :: a in PaidTo(w.paid, stage) ==> (a, PaidTo(w.paid, stage)[a]) in Leaves(t)
    ensures ClaimedIn(w.state, stage) <= LeafTotal(Leaves(t))
  {
    hide Collision, PaidTo, PaidTotal, Sum, Verifies, Leaves, LeafTotal;
    var payees := PaidTo(w.paid, stage);
    forall a | a in payees ensures (a, payees[a]) in Leaves(t) {
      assert Proven(sha, w.state.merkleRoots[stage], a, payees[a]);
      var proof :| Verifies(sha, Root(sha, t), a, payees[a], proof);
      OnlyLeavesVerify(sha, t, a, payees[a], proof);
    }
    WithinLeaves(payees, Leaves(t));
  }

  /** Over any run: an address is paid at most once per stage; the stage's running total is the sum of
      its payouts; and if the stage's root is that of a tree, every payout is one of its leaves and the
      total never exceeds the sum of the leaves, unless the hash has a collision. */
  lemma AirdropSound(sha: Hash, owner: Addr, calls: seq<Call>, stage: nat, t: Tree)
    ensures var w := Run(sha, World(Instantiate(owner), []), calls);
            && PaidOnce(w.paid)
            && ClaimedIn(w.state, stage) == PaidTotal(w.paid, stage)
            && (stage in w.state.merkleRoots && w.state.merkleRoots[stage] == Root(sha, t) ==>
                  || Collision(sha)
                  || (&& ClaimedIn(w.state, stage) <= LeafTotal(Leaves(t))
                      && forall p :: p in w.paid && p.stage == stage ==> (p.recipient, p.amount) in Leaves(t)))
  {
    hide Collision, PaidOnce, Run, PaidTo, PaidTotal, Sum, Verifies, Leaves, LeafTotal;
    var w := Run(sha, World(Instantiate(owner), []), calls);
    InstantiateInv(sha, owner);
    RunKeepsInv(sha, World(Instantiate(owner), []), calls);
    assert StageOk(sha, w, stage);
    if stage in w.state.merkleRoots && w.state.merkleRoots[stage] == Root(sha, t) && !Collision(sha) {
      PayeesAreLeaves(sha, w, stage, t);
      forall p | p in w.paid && p.stage == stage ensures (p.recipient, p.amount) in Leaves(t) {
        var i :| 0 <= i < |w.paid| && w.paid[i] == p;
        PayeesOf(w.paid, stage, i);
      }
    }
  }

  /** What was registered for a stage is never changed: its root, its expiration and its start. */
  lemma {:induction false} StagesAreFixed(sha: Hash, w: World, calls: seq<Call>, stage: nat)
    requires Inv(sha, w) && stage in w.state.merkleRoots
    ensures var s, s' := w.state, Run(sha, w, calls).state;
            && stage in s'.merkleRoots && s'.merkleRoots[stage] == s.merkleRoots[stage]
            && stage in s.expirations && stage in s'.expirations && s'.expirations[stage] == s.expirations[stage]
            && (stage in s'.starts <==> stage in s.starts)
            && (stage in s.starts ==> s'.starts[stage] == s.starts[stage])
    decreases calls
  {
    hide StageOk, PaidOnce, Verifies;
    if calls != [] {
      DeliverKeepsInv(sha, w, calls[0]);
      StagesAreFixed(sha, Deliver(sha, w, calls[0]), calls[1..], stage);
    }
  }

  // ----- registration -----

  /** Only the owner registers a stage, the next of at most 255, and only the owner names the next owner. */
  lemma OwnerActsExactly(sha: Hash, w: World, call: Call)
    ensures var byOwner := w.state.owner == Some(call.env.sender);
            match call.msg
            case RegisterMerkleRoot(_, _, _) =>
              && (Step(sha, w.state, call.env, call.msg).Success? <==> byOwner && w.state.latestStage < 255)
              && Deliver(sha, w, call).state.owner == w.state.owner
            case UpdateConfig(newOwner) =>
              && (Step(sha, w.state, call.env, call.msg).Success? <==> byOwner)
              && Deliver(sha, w, call).state.owner == if byOwner then newOwner else w.state.owner
            case Claim(_, _, _) => Deliver(sha, w, call).state.owner == w.state.owner
  {
    hide Verifies;
  }

  lemma {:induction false} OwnerStays(sha: Hash, w: World, calls: seq<Call>)
    requires forall c :: c in calls ==> !(c.msg.UpdateConfig? && Some(c.env.sender) == w.state.owner)
    ensures Run(sha, w, calls).state.owner == w.state.owner
    decreases calls
  {
    hide Step;
    if calls != [] {
      OwnerActsExactly(sha, w, calls[0]);
      OwnerStays(sha, Deliver(sha, w, calls[0]), calls[1..]);
    }
  }

  /** The airdrop belongs to its creator until the creator itself hands it over. */
  lemma CreatorOwns(sha: Hash, owner: Addr, calls: seq<Call>)
    requires forall c :: c in calls ==> !(c.msg.UpdateConfig? && c.env.sender == owner)
    ensures Run(sha, World(Instantiate(owner), []), calls).state.owner == Some(owner)
  {
    hide Run;
    OwnerStays(sha, World(Instantiate(owner), []), calls);
  }

  predicate StageOpen(s: State, stage: nat, block: Block) {
    && stage in s.merkleRoots && stage in s.expirations
    && !s.expirations[stage].IsExpired(block)
    && (stage in s.starts ==> s.starts[stage].IsTriggered(block))
  }

  lemma RegisterFilesNextStage(sha: Hash, w: World, env: Env, root: Digest, expiration: Option<Expiration>,
                               start: Option<Scheduled>)
    requires Inv(sha, w) && ExecuteRegister(w.state, env, root, expiration, start).Success?
    ensures var s' := ExecuteRegister(w.state, env, root, expiration, start).value.state;
            var stage := w.state.latestStage + 1;
            && stage !in w.state.merkleRoots && s'.merkleRoots == w.state.merkleRoots[stage := root]
            && s'.expirations == w.state.expirations[stage := if expiration.Some? then expiration.value else Never]
            && (stage in s'.starts <==> start.Some?) && (start.Some? ==> s'.starts[stage] == start.value)
            && s'.claims == w.state.claims && s'.alreadyClaimed == w.state.alreadyClaimed
  {
    hide StageOk, PaidOnce;
  }

  /** Whatever runs after it was registered, a stage has the registered root, and is open exactly from the
      registered start, if any, until the registered expiration, if any. */
  lemma StageOpensExactly(sha: Hash, w: World, env: Env, root: Digest, expiration: Option<Expiration>,
                          start: Option<Scheduled>, calls: seq<Call>, block: Block)
    requires Inv(sha, w) && ExecuteRegister(w.state, env, root, expiration, start).Success?
    ensures var w1 := Deliver(sha, w, Call(env, RegisterMerkleRoot(root, expiration, start)));
            var s, stage := Run(sha, w1, calls).state, w.state.latestStage + 1;
            && stage in s.merkleRoots && s.merkleRoots[stage] == root
            && (StageOpen(s, stage, block) <==>
                  && (match expiration
                      case Some(AtHeight(h)) => block.height < h
                      case Some(AtTime(t)) => block.time < t
                      case _ => true)
                  && (match start
                      case Some(AtHeight(h)) => h <= block.height
                      case Some(AtTime(t)) => t <= block.time
                      case None => true))
  {
    hide Inv, ExecuteRegister, Run;
    var call := Call(env, RegisterMerkleRoot(root, expiration, start));
    RegisterFilesNextStage(sha, w, env, root, expiration, start);
    DeliverKeepsInv(sha, w, call);
    StagesAreFixed(sha, Deliver(sha, w, call), calls, w.state.latestStage + 1);
  }

  // ----- completeness -----

  /** In any reachable state, for a stage with the root of a tree: an address can claim an amount, with some
      proof, exactly if the stage is open, the address has not claimed in it, the two are a leaf of the tree
      and the stage's running total has room for it. */
  lemma ClaimableExactly(sha: Hash, w: World, env: Env, stage: nat, amount: Uint128, t: Tree)
    requires Inv(sha, w) && !Collision(sha)
    requires stage in w.state.merkleRoots && w.state.merkleRoots[stage] == Root(sha, t)
    ensures var may := && StageOpen(w.state, stage, env.block) && (env.sender, stage) !in w.state.claims
                       && (env.sender, amount as nat) in Leaves(t) && ClaimedIn(w.state, stage) + amount <= U128_MAX;
            && (may <==> exists proof :: ExecuteClaim(sha, w.state, env, stage, amount, proof).Success?)
            && (may ==> ExecuteClaim(sha, w.state, env, stage, amount,
                                     Siblings(sha, t, (env.sender, amount as nat))).Success?)
  {
    hide StageOk, PaidOnce, Collision, Verifies, Leaves, Siblings, Expiration.IsExpired, Scheduled.IsTriggered;
    var leaf := (env.sender, amount as nat);
    if leaf in Leaves(t) && ClaimedIn(w.state, stage) + amount <= U128_MAX {
      LeavesVerify(sha, t, leaf);
      assert StageOpen(w.state, stage, env.block) && (env.sender, stage) !in w.state.claims ==>
          ExecuteClaim(sha, w.state, env, stage, amount, Siblings(sha, t, leaf)).Success?;
    }
    forall proof | ExecuteClaim(sha, w.state, env, stage, amount, proof).Success? ensures leaf in Leaves(t) {
      OnlyLeavesVerify(sha, t, env.sender, amount, proof);
    }
  }

  /** There is always room when the leaves add up to 128 bits, so that being a leaf decides. */
  lemma LeavesHaveRoom(sha: Hash, w: World, env: Env, stage: nat, amount: Uint128, t: Tree)
    requires Inv(sha, w) && !Collision(sha)
    requires StageOpen(w.state, stage, env.block) && w.state.merkleRoots[stage] == Root(sha, t)
    requires (env.sender, stage) !in w.state.claims && LeafTotal(Leaves(t)) <= U128_MAX
    ensures (env.sender, amount as nat) in Leaves(t) ==> ClaimedIn(w.state, stage) + amount <= U128_MAX
    ensures (env.sender, amount as nat) in Leaves(t)
       <==> exists proof :: ExecuteClaim(sha, w.state, env, stage, amount, proof).Success?
  {
    hide Collision, PaidOnce, PaidTo, PaidTotal, Sum, Verifies, Leaves, LeafTotal, ExecuteClaim;
    assert StageOk(sha, w, stage);
    if (env.sender, amount as nat) in Leaves(t) {
      PayeesAreLeaves(sha, w, stage, t);
      var payees := PaidTo(w.paid, stage);
      SumInsert(payees, Amount(), env.sender, amount);
      SumAbsent(payees, Amount(), env.sender);
      WithinLeaves(payees[env.sender := amount], Leaves(t));
    }
    ClaimableExactly(sha, w, env, stage, amount, t);
  }
}

/** The airdrop contract as it runs, proved against its steps in `Airdrop`. */
module AirdropContract {
  import opened Cosmos
  import opened Merkle
  import A = Airdrop

  ghost predicate Implements(r: Result<seq<A.Payout>>, after: A.State, step: Result<A.Outcome>) {
    match step
    case Success(outcome) => r == Success(outcome.payouts) && after == outcome.state
    case Failure(error) => r == Failure(error)
  }

  class AirdropModule {
    var owner: Option<Addr>
    var latestStage: nat
    var merkleRoots: map<nat, Digest>
    var expirations: map<nat, Expiration>
    var starts: map<nat, A.Scheduled>
    var claims: set<(Addr, nat)>
    var alreadyClaimed: map<nat, nat>

    ghost function View(): A.State
      reads this
    {
      A.State(owner, latestStage, merkleRoots, expirations, starts, claims, alreadyClaimed)
    }

    constructor (owner: Addr)
      ensures View() == A.Instantiate(owner)
    {
      this.owner := Some(owner);
      latestStage, merkleRoots, expirations, starts := 0, map[], map[], map[];
      claims, alreadyClaimed := {}, map[];
    }

    method ExecuteUpdateConfig(env: A.Env, newOwner: Option<Addr>) returns (r: Result<seq<A.Payout>>)
      modifies this`owner
      ensures Implements(r, View(), A.ExecuteUpdateConfig(old(View()), env, newOwner))
    {
      if owner.None? || owner.value != env.sender {
        return Failure(Unauthorized);
      }
      owner := newOwner;
      return Success([]);
    }

    method ExecuteRegisterMerkleRoot(env: A.Env, root: Digest,
                                     expiration: Option<Expiration>, start: Option<A.Scheduled>)
      returns (r: Result<seq<A.Payout>>)
      modifies this
      ensures Implements(r, View(), A.ExecuteRegister(old(View()), env, root, expiration, start))
    {
      if owner.None? || owner.value != env.sender {
        return Failure(Unauthorized);
      }
      if latestStage >= A.MAX_STAGE {
        return Failure(Overflow);
      }
      latestStage := latestStage + 1;
      var stage := latestStage;
      merkleRoots := merkleRoots[stage := root];
      var end := if expiration.Some? then expiration.value else Never;
      expirations := expirations[stage := end];
      if start.Some? {
        starts := starts[stage := start.value];
      }
      return Success([]);
    }

    method ExecuteClaim(sha: Hash, env: A.Env, stage: nat, amount: Uint128, proof: seq<Digest>)
      returns (r: Result<seq<A.Payout>>)
      modifies this
      ensures Implements(r, View(), A.ExecuteClaim(sha, old(View()), env, stage, amount, proof))
    {
      if stage in starts {
        if !starts[stage].IsTriggered(env.block) {
          return Failure(StageNotBegun);
        }
      }
      if stage !in expirations {
        return Failure(NotFound);
      }
      if expirations[stage].IsExpired(env.block) {
        return Failure(StageExpired);
      }
      if (env.sender, stage) in claims {
        return Failure(AlreadyClaimed);
      }
      var already := if stage in alreadyClaimed then alreadyClaimed[stage] else 0;
      if stage !in merkleRoots {
        return Failure(NotFound);
      }
      var hash := FoldProof(sha, sha(LeafInput(env.sender, amount)), proof);
      if merkleRoots[stage] != hash {
        return Failure(VerificationFailed);
      }
      claims := claims + {(env.sender, stage)};
      var total :- CheckedAdd(already, amount);
      alreadyClaimed := alreadyClaimed[stage := total];
      return Success([A.Payout(stage, env.sender, amount)]);
    }

    /** One message, with the chain's rollback of failed ones. */
    method Execute(sha: Hash, env: A.Env, msg: A.Msg) returns (r: Result<seq<A.Payout>>)
      modifies this
      ensures match A.Step(sha, old(View()), env, msg)
              case Success(outcome) => r == Success(outcome.payouts) && View() == outcome.state
              case Failure(error) => r == Failure(error) && View() == old(View())
    {
      hide A.ExecuteClaim, A.ExecuteRegister, A.ExecuteUpdateConfig;
      var saved := (owner, latestStage, merkleRoots, expirations, starts, claims, alreadyClaimed);
      match msg {
        case UpdateConfig(newOwner) => r := ExecuteUpdateConfig(env, newOwner);
        case RegisterMerkleRoot(root, expiration, start) =>
          r := ExecuteRegisterMerkleRoot(env, root, expiration, start);
        case Claim(stage, amount, proof) => r := ExecuteClaim(sha, env, stage, amount, proof);
      }
      if r.Failure? {
        owner, latestStage, merkleRoots, expirations := saved.0, saved.1, saved.2, saved.3;
        starts, claims, alreadyClaimed := saved.4, saved.5, saved.6;
      }
    }
  }
}
