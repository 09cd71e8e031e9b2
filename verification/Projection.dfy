/** The account projection: balance and positions refreshed as a whole and patched by user events, under one revision. */
module Projection {
  import opened Wrappers
  import opened Strings

  datatype Balance = Balance(currency: string, total: string, updatedAt: int)

  datatype PositionView = PositionView(contract: string, side: string, size: string, markPrice: string)

  type Positions = map<string, PositionView>

  /** What a snapshot or a hook payload shows of the account. */
  datatype View = View(balance: Option<Balance>, positions: Positions)

  datatype Payload = Payload(view: View, revision: nat)

  datatype UserEvent =
    | PositionUpdate(position: PositionView)
    | BalanceUpdate(currency: string, balance: string, at: int)
    | OtherUpdate

  /** `pending` is a payload captured by a refresh that has not called its hook yet. */
  datatype State = State(view: View, revision: nat, ready: bool, pending: Option<Payload>, delivered: seq<Payload>)

  // ---------------------------------------------------------------- transitions

  /** The fetched positions by contract; a later entry for a contract wins. */
  function ByContract(list: seq<PositionView>): Positions {
    if list == [] then map[] else
      var pv := list[|list| - 1];
      ByContract(list[..|list| - 1])[pv.contract := pv]
  }

  /** The locked part of a refresh: everything is replaced and, if a hook is set, captured. */
  function Committed(s: State, balance: Balance, list: seq<PositionView>, hooked: bool): State {
    var view, revision := View(Some(balance), ByContract(list)), s.revision + 1;
    State(view, revision, true, if hooked then Some(Payload(view, revision)) else s.pending, s.delivered)
  }

  predicate SameCurrency(a: string, b: string) {
    ToUpper(TrimSpace(a)) == ToUpper(TrimSpace(b))
  }

  /** A user event patches one position or the balance's total; `isZero` reads a size string. */
  function Patched(s: State, ev: UserEvent, isZero: string -> bool): State {
    if !s.ready then s
    else match ev
      case PositionUpdate(pv) =>
        if pv.contract == "" then s
        else if isZero(pv.size) then
          s.(view := s.view.(positions := s.view.positions - {pv.contract}), revision := s.revision + 1)
        else s.(view := s.view.(positions := s.view.positions[pv.contract := pv]), revision := s.revision + 1)
      case BalanceUpdate(currency, balance, at) =>
        if s.view.balance.None? || !SameCurrency(currency, s.view.balance.value.currency) || TrimSpace(balance) == "" then s
        else s.(view := s.view.(balance := Some(s.view.balance.value.(total := TrimSpace(balance), updatedAt := at))),
                revision := s.revision + 1)
      case OtherUpdate => s
  }

  // ---------------------------------------------------------------- the object

  class BalanceCell {
    const currency: string
    var total: string
    var updatedAt: int

    constructor (b: Balance)
      ensures AsValue() == b
    {
      currency, total, updatedAt := b.currency, b.total, b.updatedAt;
    }

    function AsValue(): Balance
      reads this
    {
      Balance(currency, total, updatedAt)
    }
  }

  class AccountProjection {
    const isZero: string -> bool
    var hooked: bool
    var balance: BalanceCell?
    var positions: Positions
    var revision: nat
    var ready: bool
    var pending: Option<Payload>
    ghost var delivered: seq<Payload>

    constructor (isZero: string -> bool, hooked: bool)
      ensures AsState() == Initial() && balance == null && this.isZero == isZero && this.hooked == hooked
    {
      this.isZero, this.hooked := isZero, hooked;
      balance, positions, revision, ready, pending, delivered := null, map[], 0, false, None, [];
    }

    function CurrentView(): View
      reads this, balance
    {
      View(if balance == null then None else Some(balance.AsValue()), positions)
    }

    ghost function AsState(): State
      reads this, balance
    {
      State(CurrentView(), revision, ready, pending, delivered)
    }

    /** A refresh whose two exchange calls succeeded; one that failed changes nothing. */
    method Commit(fetched: Balance, list: seq<PositionView>)
      modifies this
      ensures balance != null && fresh(balance)
      ensures AsState() == Committed(old(AsState()), fetched, list, hooked)
      ensures hooked == old(hooked)
    {
      var m: Positions := map[];
      var i := 0;
      while i < |list|
        invariant 0 <= i <= |list|
        invariant m == ByContract(list[..i])
      {
        assert list[..i + 1][..i] == list[..i];
        m := m[list[i].contract := list[i]];
        i := i + 1;
      }
      assert list[..i] == list;
      balance := new BalanceCell(fetched);
      positions := m;
      revision := revision + 1;
      ready := true;
      if hooked {
        pending := Some(Payload(CurrentView(), revision));
      }
    }

    /** After the lock is released the captured copy goes to the hook, whatever has changed since. */
    method CallHook() returns (payload: Option<Payload>)
      modifies this
      ensures payload == old(pending)
      ensures AsState() == Delivered(old(AsState())) && balance == old(balance)
    {
      payload := pending;
      if pending.Some? {
        delivered := delivered + [pending.value];
        pending := None;
      }
    }

    /** The balance is patched in place; snapshots and payloads are copies it does not reach. */
    method OnUserEvent(ev: UserEvent)
      modifies this, balance
      ensures balance == old(balance)
      ensures AsState() == Patched(old(AsState()), ev, isZero)
    {
      if !ready {
        return;
      }
      match ev {
        case PositionUpdate(pv) =>
          if pv.contract == "" {
            return;
          }
          if isZero(pv.size) {
            positions := positions - {pv.contract};
          } else {
            positions := positions[pv.contract := pv];
          }
          revision := revision + 1;
        case BalanceUpdate(currency, total, at) =>
          if balance == null || !SameCurrency(currency, balance.currency) || TrimSpace(total) == "" {
            return;
          }
          balance.total := TrimSpace(total);
          balance.updatedAt := at;
          revision := revision + 1;
        case OtherUpdate =>
      }
    }

    /** One contract's balance and position with the revision they belong to; None before the first refresh. */
    method Snapshot(contract: string) returns (snap: Option<(Balance, Option<PositionView>, nat)>)
      ensures snap.Some? <==> ready && balance != null
      ensures snap.Some? ==> snap == SnapshotOf(CurrentView(), revision, contract)
    {
      if !ready || balance == null {
        return None;
      }
      var position := None;
      if contract in positions {
        position := Some(positions[contract]);
      }
      snap := Some((balance.AsValue(), position, revision));
    }
  }

  function SnapshotOf(view: View, revision: nat, contract: string): Option<(Balance, Option<PositionView>, nat)> {
    if view.balance.None? then None
    else Some((view.balance.value, if contract in view.positions then Some(view.positions[contract]) else None, revision))
  }

  // ---------------------------------------------------------------- runs

  function Initial(): State {
    State(View(None, map[]), 0, false, None, [])
  }

  function Delivered(s: State): State {
    if s.pending.None? then s else s.(pending := None, delivered := s.delivered + [s.pending.value])
  }

  datatype Step =
    | RefreshFails
    | Refresh(balance: Balance, list: seq<PositionView>, hooked: bool)
    | Hook
    | User(event: UserEvent)

  /** Refreshes come from one loop: the next one starts after the last one's hook has returned. */
  function Apply(s: State, step: Step, isZero: string -> bool): State {
    match step
    case RefreshFails => s
    case Refresh(balance, list, hooked) => if s.pending.None? then Committed(s, balance, list, hooked) else s
    case Hook => Delivered(s)
    case User(ev) => Patched(s, ev, isZero)
  }

  function Run(steps: seq<Step>, isZero: string -> bool): State {
    if steps == [] then Initial() else Apply(Run(steps[..|steps| - 1], isZero), steps[|steps| - 1], isZero)
  }

  /** One step either leaves the account as it is or moves to the next revision. */
  lemma StepRevision(s: State, step: Step, isZero: string -> bool)
    ensures var t := Apply(s, step, isZero);
      && (t.revision == s.revision + 1 || (t.revision == s.revision && t.view == s.view && t.ready == s.ready))
      && (s.ready ==> t.ready)
  {
  }

  /** Along a run the revision never decreases, readiness is never lost, and the same revision is the same account. */
  lemma {:induction false} RevisionIdentifiesAccount(steps: seq<Step>, i: nat, isZero: string -> bool)
    requires i <= |steps|
    ensures var s, t := Run(steps[..i], isZero), Run(steps, isZero);
      && s.revision <= t.revision
      && (s.revision == t.revision ==> s.view == t.view && s.ready == t.ready)
      && (s.ready ==> t.ready)
  {
    if i == |steps| {
      assert steps[..i] == steps;
    } else {
      var before := steps[..|steps| - 1];
      assert before[..i] == steps[..i];
      RevisionIdentifiesAccount(before, i, isZero);
      StepRevision(Run(before, isZero), steps[|steps| - 1], isZero);
    }
  }

  /** Two snapshots of a contract taken anywhere in a run with the same revision agree. */
  lemma EqualRevisionsAgree(steps: seq<Step>, i: nat, j: nat, contract: string, isZero: string -> bool)
    requires i <= j <= |steps|
    requires Run(steps[..i], isZero).revision == Run(steps[..j], isZero).revision
    ensures var s, t := Run(steps[..i], isZero), Run(steps[..j], isZero);
      SnapshotOf(s.view, s.revision, contract) == SnapshotOf(t.view, t.revision, contract)
  {
    assert steps[..j][..i] == steps[..i];
    RevisionIdentifiesAccount(steps[..j], i, isZero);
  }

  // ---------------------------------------------------------------- what snapshots show

  /** What the account shows of one contract. */
  function Shown(s: State, contract: string): Option<PositionView> {
    if contract in s.view.positions then Some(s.view.positions[contract]) else None
  }

  /**
   * On a ready account a position event is shown as it came if its size is not zero, and as no position
   * if it is, under the next revision; every other contract and the balance stay.
   */
  lemma PositionEventShown(s: State, pv: PositionView, isZero: string -> bool, other: string)
    requires s.ready && pv.contract != ""
    ensures var t := Apply(s, User(PositionUpdate(pv)), isZero);
      && Shown(t, pv.contract) == (if isZero(pv.size) then None else Some(pv))
      && (other != pv.contract ==> Shown(t, other) == Shown(s, other))
      && t.view.balance == s.view.balance && t.revision == s.revision + 1 && t.ready
  {
  }

  /** A balance event of the account's own currency sets the trimmed total and the time, and nothing else. */
  lemma BalanceEventShown(s: State, currency: string, total: string, at: int, isZero: string -> bool)
    requires s.ready && s.view.balance.Some? && TrimSpace(total) != ""
    requires ToUpper(TrimSpace(currency)) == ToUpper(TrimSpace(s.view.balance.value.currency))
    ensures var t := Apply(s, User(BalanceUpdate(currency, total, at)), isZero);
      && t.view == View(Some(Balance(s.view.balance.value.currency, TrimSpace(total), at)), s.view.positions)
      && t.revision == s.revision + 1 && t.ready
  {
  }

  /** Every other event changes nothing at all. */
  lemma OtherEventsIgnored(s: State, ev: UserEvent, isZero: string -> bool)
    requires !s.ready || ev.OtherUpdate? || (ev.PositionUpdate? && ev.position.contract == "")
          || (ev.BalanceUpdate? && (s.view.balance.None? || TrimSpace(ev.balance) == ""
                                    || ToUpper(TrimSpace(ev.currency)) != ToUpper(TrimSpace(s.view.balance.value.currency))))
    ensures Apply(s, User(ev), isZero) == s
  {
  }

  lemma {:induction false} FetchedContracts(list: seq<PositionView>, contract: string)
    ensures contract in ByContract(list) <==> exists i :: 0 <= i < |list| && list[i].contract == contract
  {
    if list != [] {
      var n := |list| - 1;
      FetchedContracts(list[..n], contract);
      if i :| 0 <= i < n && list[i].contract == contract { assert list[..n][i].contract == contract; }
    }
  }

  /** Of several fetched positions in a contract the last one is shown. */
  lemma {:induction false} FetchedLast(list: seq<PositionView>, i: nat)
    requires i < |list| && forall j :: i < j < |list| ==> list[j].contract != list[i].contract
    ensures list[i].contract in ByContract(list) && ByContract(list)[list[i].contract] == list[i]
  {
    if i < |list| - 1 {
      FetchedLast(list[..|list| - 1], i);
    }
  }

  /** After a refresh nothing is shown of a contract that was not fetched. */
  lemma UnfetchedGone(s: State, balance: Balance, list: seq<PositionView>, hooked: bool, contract: string, isZero: string -> bool)
    requires s.pending.None? && forall i :: 0 <= i < |list| ==> list[i].contract != contract
    ensures Shown(Apply(s, Refresh(balance, list, hooked), isZero), contract) == None
  {
    FetchedContracts(list, contract);
  }

  /** A refresh shows the fetched balance and positions, whatever was there, on a ready account. */
  lemma RefreshShown(s: State, balance: Balance, list: seq<PositionView>, hooked: bool, i: nat, isZero: string -> bool)
    requires s.pending.None? && i < |list| && forall j :: i < j < |list| ==> list[j].contract != list[i].contract
    ensures var t := Apply(s, Refresh(balance, list, hooked), isZero);
      && t.ready && t.revision == s.revision + 1 && t.view.balance == Some(balance)
      && Shown(t, list[i].contract) == Some(list[i])
      && t.pending == (if hooked then Some(Payload(t.view, t.revision)) else None) && t.delivered == s.delivered
  {
    FetchedLast(list, i);
  }

  // ---------------------------------------------------------------- the refresh hook

  /** The account as it was at some point of the run. */
  ghost predicate WasAt(steps: seq<Step>, p: Payload, isZero: string -> bool) {
    exists i :: 0 <= i <= |steps| && At(steps, i, p, isZero)
  }

  predicate At(steps: seq<Step>, i: nat, p: Payload, isZero: string -> bool)
    requires i <= |steps|
  {
    var s := Run(steps[..i], isZero); s.ready && s.view == p.view && s.revision == p.revision
  }

  ghost predicate PayloadsOk(steps: seq<Step>, isZero: string -> bool) {
    var s := Run(steps, isZero);
    && (forall k :: 0 <= k < |s.delivered| ==> WasAt(steps, s.delivered[k], isZero) && s.delivered[k].revision <= s.revision)
    && (forall k, l :: 0 <= k < l < |s.delivered| ==> s.delivered[k].revision < s.delivered[l].revision)
    && (s.pending.Some? ==>
          && WasAt(steps, s.pending.value, isZero) && s.pending.value.revision <= s.revision
          && forall k :: 0 <= k < |s.delivered| ==> s.delivered[k].revision < s.pending.value.revision)
  }

  lemma WasAtExtended(steps: seq<Step>, step: Step, p: Payload, isZero: string -> bool)
    requires WasAt(steps, p, isZero)
    ensures WasAt(steps + [step], p, isZero)
  {
    var i :| 0 <= i <= |steps| && At(steps, i, p, isZero);
    assert (steps + [step])[..i] == steps[..i];
    assert At(steps + [step], i, p, isZero);
  }

  /** A refresh captures the account as it has just become. */
  lemma CapturedIsCurrent(steps: seq<Step>, step: Step, isZero: string -> bool)
    requires step.Refresh? && step.hooked && Run(steps, isZero).pending.None?
    ensures var t := Run(steps + [step], isZero);
      t.pending.Some? && t.pending.value.revision == t.revision && WasAt(steps + [step], t.pending.value, isZero)
  {
    var after := steps + [step];
    assert after[..|steps|] == steps && after[..|after|] == after;
    assert At(after, |after|, Run(after, isZero).pending.value, isZero);
  }

  lemma StepPayloads(steps: seq<Step>, step: Step, isZero: string -> bool)
    requires PayloadsOk(steps, isZero)
    ensures PayloadsOk(steps + [step], isZero)
  {
    var s, t := Run(steps, isZero), Run(steps + [step], isZero);
    assert (steps + [step])[..|steps|] == steps;
    StepRevision(s, step, isZero);
    forall k | 0 <= k < |s.delivered| ensures WasAt(steps + [step], s.delivered[k], isZero) {
      WasAtExtended(steps, step, s.delivered[k], isZero);
    }
    if s.pending.Some? {
      WasAtExtended(steps, step, s.pending.value, isZero);
    } else if step.Refresh? && step.hooked {
      CapturedIsCurrent(steps, step, isZero);
    }
  }

  /**
   * Every payload a refresh hook gets is the account at one moment of the run, and the revisions of
   * successive payloads strictly increase, however user events interleave with the hook calls.
   */
  lemma {:induction false} PayloadsAreConsistent(steps: seq<Step>, isZero: string -> bool)
    ensures PayloadsOk(steps, isZero)
  {
    if steps != [] {
      var before, step := steps[..|steps| - 1], steps[|steps| - 1];
      PayloadsAreConsistent(before, isZero);
      StepPayloads(before, step, isZero);
      assert steps == before + [step];
    }
  }
}
