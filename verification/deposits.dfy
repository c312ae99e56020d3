/** The deposit ledger: what the proposal module asked for, paid back, still holds and kept. */
module Deposits {
  import opened Cosmos
  import opened Sums
  import opened Voting
  import opened Proposals
  import opened EarlyDecisions
  import opened Governance
  import opened GovernanceInvariants

  // ----- every message is accounted for -----

  const ANY_DAO := Addr(0)

  /** Which DAO runs a proposal's own messages is up to the configuration at that moment. */
  function Erased(m: Outgoing): Outgoing {
    if m.ExecuteProposalHook? then m.(dao := ANY_DAO) else m
  }

  /** The messages of a response, in no order. */
  function Sent(out: seq<Outgoing>): multiset<Outgoing> {
    if out == [] then multiset{} else multiset{Erased(out[0])} + Sent(out[1..])
  }

  lemma {:induction false} SentConcat(a: seq<Outgoing>, b: seq<Outgoing>)
    ensures Sent(a + b) == Sent(a) + Sent(b)
  {
    if a == [] {
      assert a + b == b;
    } else {
      assert (a + b)[1..] == a[1..] + b;
      SentConcat(a[1..], b);
    }
  }

  lemma NothingSent()
    ensures Sent([]) == multiset{}
  {
  }

  /** Whether the deposit of `p` goes back to its proposer, as its status tells. */
  predicate IsRefunded(p: Proposal) {
    p.depositInfo.Some? && (p.status == Executed || (p.status == Closed && p.depositInfo.value.refundFailedProposals))
  }

  /** The request of the deposit from the proposer, and its payment back. */
  function Requested(p: Proposal, self: Addr): multiset<Outgoing> {
    match p.depositInfo
    case Some(DepositInfo(token, deposit, _)) =>
      if deposit > 0 then multiset{TransferFrom(token, p.proposer, self, deposit)} else multiset{}
    case None => multiset{}
  }

  function Refund(p: Proposal): multiset<Outgoing> {
    match p.depositInfo
    case Some(DepositInfo(token, deposit, _)) =>
      if deposit > 0 then multiset{Transfer(token, p.proposer, deposit)} else multiset{}
    case None => multiset{}
  }

  function HookMsg(dao: Addr, msgs: seq<CosmosMsg>): seq<Outgoing> {
    if msgs == [] then [] else [ExecuteProposalHook(dao, msgs)]
  }

  /** The messages a stored proposal stands for: one request of the deposit that was configured when it
      was created; once executed, its own messages; once refunded, one payment of the deposit to its
      proposer. */
  function MsgsOf(p: Proposal, self: Addr): multiset<Outgoing> {
    Requested(p, self)
    + (if p.status == Executed && p.msgs != [] then multiset{ExecuteProposalHook(ANY_DAO, p.msgs)} else multiset{})
    + (if IsRefunded(p) then Refund(p) else multiset{})
  }

  lemma SentOne(m: Outgoing)
    ensures Sent([m]) == multiset{Erased(m)} && Sent([]) == multiset{}
  {
    assert [m][1..] == [];
  }

  lemma DepositIgnoresStatus(p: Proposal, status: Status, self: Addr)
    ensures Requested(p.(status := status), self) == Requested(p, self)
    ensures Refund(p.(status := status)) == Refund(p)
  {
  }

  lemma DepositsSent(p: Proposal, self: Addr)
    ensures Sent(DepositMsg(p.depositInfo, self, p.proposer)) == Requested(p, self)
    ensures p.depositInfo.Some? ==> Sent(ReturnDepositMsg(p.depositInfo.value, p.proposer)) == Refund(p)
  {
    hide Sent;
    NothingSent();
    if p.depositInfo.Some? {
      var info := p.depositInfo.value;
      SentOne(TransferFrom(info.token, p.proposer, self, info.deposit));
      SentOne(Transfer(info.token, p.proposer, info.deposit));
    }
  }

  /** The messages of proposals 1 to n. */
  function Ledger(proposals: map<nat, Proposal>, n: nat, self: Addr): multiset<Outgoing>
    requires forall id :: 1 <= id <= n ==> id in proposals
  {
    if n == 0 then multiset{} else Ledger(proposals, n - 1, self) + MsgsOf(proposals[n], self)
  }

  lemma {:induction false} LedgerUpdate(proposals: map<nat, Proposal>, n: nat, self: Addr, id: nat, p: Proposal)
    requires forall i :: 1 <= i <= n ==> i in proposals
    requires id > n || id == 0
    ensures Ledger(proposals[id := p], n, self) == Ledger(proposals, n, self)
  {
    hide MsgsOf;
    if n > 0 {
      LedgerUpdate(proposals, n - 1, self, id, p);
    }
  }

  lemma {:induction false} LedgerReplace(proposals: map<nat, Proposal>, n: nat, self: Addr, id: nat, p: Proposal)
    requires forall i :: 1 <= i <= n ==> i in proposals
    requires 1 <= id <= n
    ensures Ledger(proposals[id := p], n, self) + MsgsOf(proposals[id], self)
         == Ledger(proposals, n, self) + MsgsOf(p, self)
  {
    hide MsgsOf;
    if id == n {
      LedgerUpdate(proposals, n - 1, self, id, p);
    } else {
      var a, b := Ledger(proposals[id := p], n - 1, self), Ledger(proposals, n - 1, self);
      var last := MsgsOf(proposals[n], self);
      LedgerReplace(proposals, n - 1, self, id, p);
      assert (a + last) + MsgsOf(proposals[id], self) == (a + MsgsOf(proposals[id], self)) + last;
      assert (b + last) + MsgsOf(p, self) == (b + MsgsOf(p, self)) + last;
    }
  }

  lemma LedgerLast(proposals: map<nat, Proposal>, n: nat, self: Addr)
    requires n > 0 && forall i :: 1 <= i <= n ==> i in proposals
    ensures Ledger(proposals, n, self) == Ledger(proposals, n - 1, self) + MsgsOf(proposals[n], self)
  {
  }

  /** A message writes at most one proposal, and what it sends is what that proposal's entry grows by. */
  ghost predicate Writes(s: State, d: Outcome, self: Addr, id: nat)
    requires Inv(s)
  {
    && id in d.state.proposals
    && d.state.proposals == s.proposals[id := d.state.proposals[id]]
    && (id in s.proposals ==>
          && d.state.proposalCount == s.proposalCount
          && MsgsOf(d.state.proposals[id], self) == Sent(d.out) + MsgsOf(s.proposals[id], self))
    && (id !in s.proposals ==>
          && id == d.state.proposalCount == s.proposalCount + 1
          && MsgsOf(d.state.proposals[id], self) == Sent(d.out))
  }

  lemma ProposeWrites(q: Querier, s: State, env: Env, msgs: seq<CosmosMsg>, size: nat)
    requires Inv(s) && ExecutePropose(q, s, env, msgs, size).Success?
    ensures var d := ExecutePropose(q, s, env, msgs, size).value; Writes(s, d, env.contract, d.state.proposalCount)
  {
    hide Sent, TalliesMatch, Aligned, ValidateConfig, Requested, Refund, DepositMsg,
         Proposal.IsPassed, Proposal.IsRejected;
    var s' := ExecutePropose(q, s, env, msgs, size).value.state;
    DepositsSent(s'.proposals[s'.proposalCount], env.contract);
  }

  lemma OpenMsgs(p: Proposal, p': Proposal, self: Addr)
    requires p'.SameTerms(p) && !Final(p.status) && !Final(p'.status)
    ensures MsgsOf(p', self) == MsgsOf(p, self)
  {
  }

  lemma VoteWrites(q: Querier, s: State, env: Env, id: nat, vote: Vote)
    requires Inv(s) && ExecuteVote(q, s, env, id, vote).Success?
    ensures Writes(s, ExecuteVote(q, s, env, id, vote).value, env.contract, id)
  {
    hide Sent, MsgsOf, Inv, Tally, BallotsOf, Proposal.CurrentStatus, Votes.AddVote, Votes.RemoveVote;
    VoteEffect(q, s, env, id, vote);
    StoredStatusShows(s.proposals[id], env.block);
    NothingSent();
    OpenMsgs(s.proposals[id], ExecuteVote(q, s, env, id, vote).value.state.proposals[id], env.contract);
  }

  lemma HookSent(dao: Addr, msgs: seq<CosmosMsg>)
    ensures Sent(HookMsg(dao, msgs))
         == if msgs == [] then multiset{} else multiset{ExecuteProposalHook(ANY_DAO, msgs)}
  {
    SentOne(ExecuteProposalHook(dao, msgs));
  }

  lemma ExecutedMsgs(p: Proposal, dao: Addr, self: Addr, out: seq<Outgoing>)
    requires p.status == Open || p.status == Passed
    requires out == HookMsg(dao, p.msgs)
                    + if p.depositInfo.Some? then ReturnDepositMsg(p.depositInfo.value, p.proposer) else []
    ensures MsgsOf(p.(status := Executed), self) == Sent(out) + MsgsOf(p, self)
  {
    hide Sent, HookMsg, ReturnDepositMsg, DepositMsg, Requested, Refund;
    NothingSent();
    HookSent(dao, p.msgs);
    DepositsSent(p, self);
    DepositIgnoresStatus(p, Executed, self);
    SentConcat(HookMsg(dao, p.msgs),
               if p.depositInfo.Some? then ReturnDepositMsg(p.depositInfo.value, p.proposer) else []);
  }

  lemma ExecuteWrites(q: Querier, s: State, env: Env, id: nat)
    requires Inv(s) && ExecuteExecute(q, s, env, id).Success?
    ensures Writes(s, ExecuteExecute(q, s, env, id).value, env.contract, id)
  {
    hide Sent, MsgsOf, TalliesMatch, Aligned, ValidateConfig, Proposal.CurrentStatus, ReturnDepositMsg;
    StoredStatusShows(s.proposals[id], env.block);
    ExecutedMsgs(s.proposals[id], s.config.dao, env.contract, ExecuteExecute(q, s, env, id).value.out);
  }

  lemma ClosedMsgs(p: Proposal, self: Addr, out: seq<Outgoing>)
    requires p.status == Open || p.status == Rejected
    requires out == if p.depositInfo.Some? && p.depositInfo.value.refundFailedProposals
                    then ReturnDepositMsg(p.depositInfo.value, p.proposer) else []
    ensures MsgsOf(p.(status := Closed), self) == Sent(out) + MsgsOf(p, self)
  {
    hide Sent, ReturnDepositMsg, DepositMsg, Requested, Refund;
    NothingSent();
    DepositsSent(p, self);
    DepositIgnoresStatus(p, Closed, self);
  }

  lemma CloseWrites(s: State, env: Env, id: nat)
    requires Inv(s) && ExecuteClose(s, env, id).Success?
    ensures Writes(s, ExecuteClose(s, env, id).value, env.contract, id)
  {
    hide Sent, MsgsOf, TalliesMatch, Aligned, ValidateConfig, Proposal.CurrentStatus, ReturnDepositMsg;
    StoredStatusShows(s.proposals[id], env.block);
    ClosedMsgs(s.proposals[id], env.contract, ExecuteClose(s, env, id).value.out);
  }

  lemma Cancel<T>(a: multiset<T>, b: multiset<T>, extra: multiset<T>, common: multiset<T>)
    requires a + common == b + (extra + common)
    ensures a == extra + b
  {
    assert a == (a + common) - common;
    assert extra + b == (b + (extra + common)) - common;
  }

  lemma WritesKeepsLedger(s: State, d: Outcome, self: Addr, id: nat)
    requires Inv(s) && Inv(d.state) && Writes(s, d, self, id)
    ensures Ledger(d.state.proposals, d.state.proposalCount, self)
         == Sent(d.out) + Ledger(s.proposals, s.proposalCount, self)
  {
    hide Ledger, MsgsOf, Sent, TalliesMatch, Aligned, ValidateConfig;
    if id in s.proposals {
      LedgerReplace(s.proposals, s.proposalCount, self, id, d.state.proposals[id]);
      Cancel(Ledger(d.state.proposals, d.state.proposalCount, self), Ledger(s.proposals, s.proposalCount, self),
             Sent(d.out), MsgsOf(s.proposals[id], self));
    } else {
      LedgerUpdate(s.proposals, s.proposalCount, self, id, d.state.proposals[id]);
      LedgerLast(d.state.proposals, id, self);
    }
  }

  lemma StepKeepsLedger(q: Querier, s: State, call: Call)
    requires Inv(s)
    ensures var d := Deliver(q, s, call);
            && Inv(d.state)
            && Ledger(d.state.proposals, d.state.proposalCount, call.env.contract)
            == Sent(d.out) + Ledger(s.proposals, s.proposalCount, call.env.contract)
  {
    hide Ledger, MsgsOf, Writes, TalliesMatch, Aligned, ValidateConfig, ExecutePropose,
         ExecuteVote, ExecuteExecute, ExecuteClose;
    DeliverKeepsInv(q, s, call);
    var self, d := call.env.contract, Deliver(q, s, call);
    if Step(q, s, call.env, call.msg).Success? {
      match call.msg
      case Propose(msgs, size) =>
        ProposeWrites(q, s, call.env, msgs, size);
        WritesKeepsLedger(s, d, self, d.state.proposalCount);
      case CastVote(id, vote) =>
        VoteWrites(q, s, call.env, id, vote);
        WritesKeepsLedger(s, d, self, id);
      case Execute(id) =>
        ExecuteWrites(q, s, call.env, id);
        WritesKeepsLedger(s, d, self, id);
      case Close(id) =>
        CloseWrites(s, call.env, id);
        WritesKeepsLedger(s, d, self, id);
      case _ =>
    }
  }

  lemma {:induction false} RunKeepsLedger(q: Querier, s: State, self: Addr, now: Block, calls: seq<Call>)
    requires Inv(s) && Ordered(self, now, calls)
    ensures var d := Run(q, s, calls);
            && Inv(d.state)
            && Ledger(d.state.proposals, d.state.proposalCount, self)
            == Sent(d.out) + Ledger(s.proposals, s.proposalCount, self)
    decreases calls
  {
    hide Ledger, Sent, Inv, Deliver;
    if calls == [] {
      assert Sent([]) == multiset{} by { NothingSent(); }
    } else {
      var d := Deliver(q, s, calls[0]);
      StepKeepsLedger(q, s, calls[0]);
      RunKeepsLedger(q, d.state, self, calls[0].env.block, calls[1..]);
      SentConcat(d.out, Run(q, d.state, calls[1..]).out);
    }
  }

  /** From instantiation on, over any run and any configuration changes: the messages sent are, as a
      multiset, exactly those of the stored proposals. So every deposit was requested once, in the
      amount fixed at creation, and paid back to its proposer at most once, when and only when the
      proposal was executed or closed with refund; and the messages of a proposal were run once if it
      was executed and never otherwise. */
  lemma LedgerIsExact(q: Querier, config: Config, preAllowed: set<Addr>, self: Addr, now: Block, calls: seq<Call>)
    requires Instantiate(config, preAllowed).Success?
    requires Ordered(self, now, calls)
    ensures var d := Run(q, Instantiate(config, preAllowed).value, calls);
            && Inv(d.state)
            && Sent(d.out) == Ledger(d.state.proposals, d.state.proposalCount, self)
  {
    hide Sent, Inv, Run;
    InstantiateInv(config, preAllowed);
    RunKeepsLedger(q, Instantiate(config, preAllowed).value, self, now, calls);
  }

  // ----- amounts -----

  function RequestedIn(token: Addr): Outgoing -> nat {
    (m: Outgoing) => if m.TransferFrom? && m.token == token then m.amount else 0
  }

  function PaidIn(token: Addr): Outgoing -> nat {
    (m: Outgoing) => if m.Transfer? && m.token == token then m.amount else 0
  }

  function DepositIn(p: Proposal, token: Addr): nat {
    if p.depositInfo.Some? && p.depositInfo.value.token == token then p.depositInfo.value.deposit else 0
  }

  /** Deposits in `token` of proposals 1 to n that are neither executed nor closed. */
  function Held(proposals: map<nat, Proposal>, n: nat, token: Addr): nat
    requires forall id :: 1 <= id <= n ==> id in proposals
  {
    if n == 0 then 0
    else Held(proposals, n - 1, token) + if Final(proposals[n].status) then 0 else DepositIn(proposals[n], token)
  }

  /** Deposits in `token` of those that were closed without a refund. */
  function Forfeited(proposals: map<nat, Proposal>, n: nat, token: Addr): nat
    requires forall id :: 1 <= id <= n ==> id in proposals
  {
    if n == 0 then 0
    else
      var p := proposals[n];
      Forfeited(proposals, n - 1, token)
      + if p.status == Closed && p.depositInfo.Some? && !p.depositInfo.value.refundFailedProposals
        then DepositIn(p, token) else 0
  }

  lemma NothingWeighs(weight: Outgoing -> nat)
    ensures Weigh(multiset{}, weight) == 0
  {
  }

  lemma OneWeighs(m: Outgoing, weight: Outgoing -> nat)
    ensures Weigh(multiset{m}, weight) == weight(m)
  {
    WeighRemove(multiset{m}, weight, m);
    NothingWeighs(weight);
  }

  /** A proposal requests and pays its deposit, as far as its messages go that move tokens. */
  lemma AmountsOfParts(p: Proposal, self: Addr, token: Addr)
    ensures Weigh(Requested(p, self), RequestedIn(token)) == DepositIn(p, token)
    ensures Weigh(Requested(p, self), PaidIn(token)) == 0
    ensures Weigh(Refund(p), RequestedIn(token)) == 0
    ensures Weigh(Refund(p), PaidIn(token)) == DepositIn(p, token)
  {
    hide Weigh;
    NothingWeighs(RequestedIn(token));
    NothingWeighs(PaidIn(token));
    if p.depositInfo.Some? {
      var info := p.depositInfo.value;
      OneWeighs(TransferFrom(info.token, p.proposer, self, info.deposit), RequestedIn(token));
      OneWeighs(TransferFrom(info.token, p.proposer, self, info.deposit), PaidIn(token));
      OneWeighs(Transfer(info.token, p.proposer, info.deposit), RequestedIn(token));
      OneWeighs(Transfer(info.token, p.proposer, info.deposit), PaidIn(token));
    }
  }

  lemma AmountsOfProposal(p: Proposal, self: Addr, token: Addr)
    ensures Weigh(MsgsOf(p, self), RequestedIn(token)) == DepositIn(p, token)
    ensures Weigh(MsgsOf(p, self), PaidIn(token)) == if IsRefunded(p) then DepositIn(p, token) else 0
  {
    hide Weigh, Requested, Refund, DepositIn, IsRefunded;
    var ask, pay := Requested(p, self), if IsRefunded(p) then Refund(p) else multiset{};
    var run := if p.status == Executed && p.msgs != [] then multiset{ExecuteProposalHook(ANY_DAO, p.msgs)}
               else multiset{};
    AmountsOfParts(p, self, token);
    NothingWeighs(RequestedIn(token));
    NothingWeighs(PaidIn(token));
    OneWeighs(ExecuteProposalHook(ANY_DAO, p.msgs), RequestedIn(token));
    OneWeighs(ExecuteProposalHook(ANY_DAO, p.msgs), PaidIn(token));
    WeighPlus(ask + run, pay, RequestedIn(token));
    WeighPlus(ask, run, RequestedIn(token));
    WeighPlus(ask + run, pay, PaidIn(token));
    WeighPlus(ask, run, PaidIn(token));
  }

  /** What one proposal's messages request they pay back, or the deposit is held or forfeited. */
  lemma ProposalBalances(p: Proposal, self: Addr, token: Addr)
    ensures Weigh(MsgsOf(p, self), RequestedIn(token))
         == Weigh(MsgsOf(p, self), PaidIn(token))
            + (if Final(p.status) then 0 else DepositIn(p, token))
            + (if p.status == Closed && p.depositInfo.Some? && !p.depositInfo.value.refundFailedProposals
               then DepositIn(p, token) else 0)
  {
    hide Weigh, MsgsOf;
    AmountsOfProposal(p, self, token);
  }

  lemma {:induction false} LedgerBalances(proposals: map<nat, Proposal>, n: nat, self: Addr, token: Addr)
    requires forall id :: 1 <= id <= n ==> id in proposals
    ensures Weigh(Ledger(proposals, n, self), RequestedIn(token))
         == Weigh(Ledger(proposals, n, self), PaidIn(token))
             + Held(proposals, n, token) + Forfeited(proposals, n, token)
  {
    hide MsgsOf, Weigh, DepositIn;
    if n == 0 {
      NothingWeighs(RequestedIn(token));
      NothingWeighs(PaidIn(token));
    } else {
      LedgerBalances(proposals, n - 1, self, token);
      var before, last := Ledger(proposals, n - 1, self), MsgsOf(proposals[n], self);
      WeighPlus(before, last, RequestedIn(token));
      WeighPlus(before, last, PaidIn(token));
      ProposalBalances(proposals[n], self, token);
    }
  }

  /** In every token, over any run and any configuration changes: deposits requested equal refunds
      paid, plus deposits of proposals still neither executed nor closed, plus those forfeited by
      closing without refund. */
  lemma DepositsConserved(q: Querier, config: Config, preAllowed: set<Addr>, self: Addr, now: Block,
                          calls: seq<Call>, token: Addr)
    requires Instantiate(config, preAllowed).Success?
    requires Ordered(self, now, calls)
    ensures var d := Run(q, Instantiate(config, preAllowed).value, calls);
            && Inv(d.state)
            && Weigh(Sent(d.out), RequestedIn(token))
            == Weigh(Sent(d.out), PaidIn(token))
               + Held(d.state.proposals, d.state.proposalCount, token)
               + Forfeited(d.state.proposals, d.state.proposalCount, token)
  {
    hide Sent, Run, Held, Forfeited, Ledger, Weigh;
    LedgerIsExact(q, config, preAllowed, self, now, calls);
    var s := Run(q, Instantiate(config, preAllowed).value, calls).state;
    LedgerBalances(s.proposals, s.proposalCount, self, token);
  }
}
