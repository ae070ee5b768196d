/** The byte bucket and the engine's code under the signing protocol's ledger. */
module Refinement {
  import opened Accounts
  import opened Cap
  import opened Engine
  import opened Int64
  import opened Policy
  import opened Signing
  import opened Store
  import opened Wrappers
  import Intents

  /** What the store does for a write of the protocol; its argument is an `int64`. */
  function Persisted(bucket: Bucket, write: Option<Write<Slot>>): Bucket {
    if write.Some? then Credited(bucket, Key(write.value.key), Wrap(write.value.amount)) else bucket
  }

  /** The bucket after a run: every write of the run, in order, on an empty bucket. */
  function BucketAfter(start: System, run: seq<Step>): Bucket {
    if run == [] then map[]
    else
      var front, step := run[..|run| - 1], run[|run| - 1];
      var before := After(start, front);
      Persisted(BucketAfter(start, front), if before.Some? then WriteOf(before.value, step) else None)
  }

  predicate ProperArrivals(run: seq<Step>) {
    forall k :: 0 <= k < |run| && run[k].Arrive? ==> '/' !in run[k].wallet
  }

  predicate ProperWallets(sys: System) {
    forall id :: 0 <= id < |sys.sessions| ==> '/' !in sys.sessions[id].wallet
  }

  lemma CreditWraps(ledger: Ledger, slot: Slot, amount: int, wrapped: Int64)
    requires wrapped == Wrap(amount)
    ensures Credit(ledger, slot, wrapped) == Credit(ledger, slot, amount)
  {
    var current := Read(ledger, slot);
    var total := Wrap(current + amount);
    SameTotal(current, amount, wrapped);
    CreditTo(ledger, slot, wrapped, total);
    CreditTo(ledger, slot, amount, total);
  }

  lemma PersistedSimulates(bucket: Bucket, ledger: Ledger, write: Option<Write<Slot>>)
    requires Simulates(bucket, ledger) && (write.Some? ==> Proper(write.value.key))
    ensures Simulates(Persisted(bucket, write), Written(ledger, write))
  {
    if write.Some? {
      var slot, amount := write.value.key, write.value.amount;
      CreditSimulates(bucket, ledger, slot, Wrap(amount));
      CreditWraps(ledger, slot, amount, Wrap(amount));
    }
  }

  lemma WritesOwnWallet(sys: System, step: Step)
    requires SystemOk(sys)
    ensures var write := WriteOf(sys, step);
            write.Some? ==>
                step.Act? && step.id < |sys.sessions| && write.value.key.wallet == sys.sessions[step.id].wallet
  {
  }

  /** In every run over proper wallet names the bytes on disk stand for the protocol's ledger. */
  lemma {:induction false} BucketRefinesLedger(setup: Setup, today: Day, run: seq<Step>)
    requires ProperArrivals(run) && After(Initial(setup, today), run).Some?
    ensures ProperWallets(After(Initial(setup, today), run).value)
    ensures Simulates(BucketAfter(Initial(setup, today), run), After(Initial(setup, today), run).value.ledger)
  {
    if run != [] {
      var front, step := run[..|run| - 1], run[|run| - 1];
      var sys := After(Initial(setup, today), front).value;
      BucketRefinesLedger(setup, today, front);
      ReachableConserved(setup, today, front);
      WritesOwnWallet(sys, step);
      PersistedSimulates(BucketAfter(Initial(setup, today), front), sys.ledger, WriteOf(sys, step));
      NextPersists(sys, step);
    }
  }

  lemma NextPersists(sys: System, step: Step)
    requires Next(sys, step).Some?
    ensures Next(sys, step).value.ledger == Written(sys.ledger, WriteOf(sys, step))
    ensures ProperWallets(sys) && (step.Arrive? ==> '/' !in step.wallet) ==> ProperWallets(Next(sys, step).value)
  {
    if step.Act? {
      MoveKeepsIntent(sys.setup, sys.today, sys.ledger, sys.sessions[step.id], step.action);
    }
  }

  /** What an uninterrupted `Check` that passed its screening writes on the bucket. */
  function CheckWrite(bucket: Bucket, slot: Slot, screening: Screening, plan: Plan,
      commits: bool): Option<Write<Slot>> {
    if Reserves(screening, plan, Counter(bucket, Key(slot)), commits) then Some(Write(slot, plan.amount)) else None
  }

  lemma ReserveRefines(setup: Setup, p: Policy, bucket: Bucket, ledger: Ledger, s: Session, day: Day, commits: bool)
    requires Simulates(bucket, ledger) && '/' !in s.wallet && s.phase.Screened?
    ensures
      var i := IntentOf(s.wallet, s.tx);
      var slot, plan := Slot(s.wallet, i.token, day), DailyPlan(p, i, setup.hasStore);
      var screening, move := Passed(s.phase.approval), ReserveMove(setup, p, ledger, s, day, commits);
      var verdict := Settle(screening, plan, Counter(bucket, Key(slot)), commits);
      && move.session.log == s.log + [Checked(verdict, s.phase.quotes)]
      && move.write == CheckWrite(bucket, slot, screening, plan, commits)
  {
  }

  /**
   * One uninterrupted `Check` on the bucket is the protocol's two steps on the
   * ledger: the same verdict is noted and the same amount is written.
   */
  lemma CheckRefines(setup: Setup, today: Day, bucket: Bucket, ledger: Ledger, s: Session, p: Policy,
      q1: Option<real>, q2: Option<real>, commits: bool)
    requires s.phase.Preflighted? && !s.kind.LimitOverride? && s.tx.decodes
    requires PolicyOf(setup, s.wallet) == Some(p) && Simulates(bucket, ledger) && '/' !in s.wallet
    ensures
      var i := IntentOf(s.wallet, s.tx);
      var slot, screening, plan := Slot(s.wallet, i.token, today), Screen(p, i, q1, q2),
          DailyPlan(p, i, setup.hasStore);
      var verdict, write := Settle(screening, plan, Counter(bucket, Key(slot)), commits),
          CheckWrite(bucket, slot, screening, plan, commits);
      var evaluated := EvaluateMove(setup, today, s, q1, q2);
      if screening.Refused? then evaluated.log == s.log + [Checked(verdict, Quotes(q1, q2))] && write.None?
      else
        var move := ReserveMove(setup, p, ledger, evaluated, today, commits);
        && Advance(setup, today, ledger, evaluated, Reserve(commits)) == Some(move)
        && move.session.log == s.log + [Checked(verdict, Quotes(q1, q2))]
        && move.write == write
  {
    var screening := Screen(p, IntentOf(s.wallet, s.tx), q1, q2);
    if screening.Passed? {
      var evaluated := EvaluateMove(setup, today, s, q1, q2);
      assert evaluated == s.(phase := Screened(screening.approval, Quotes(q1, q2)), checkDay := Some(today));
      ReserveRefines(setup, p, bucket, ledger, evaluated, today, commits);
    }
  }

  /** What `ReleaseReserve` does to the bucket of an engine with this setup. */
  function ReleasedOn(setup: Setup, today: Day, bucket: Bucket, s: Session, commits: bool): Bucket {
    var i, amount := IntentOf(s.wallet, s.tx), TakenBack(setup, s, commits);
    var slot := Slot(s.wallet, i.token, if s.checkDay.Some? then s.checkDay.value else today);
    if amount.Some? then Credited(bucket, Key(slot), Negated(amount.value)) else bucket
  }

  /** What `RecordOverrideSpend` does to it. */
  function RecordedOn(setup: Setup, today: Day, bucket: Bucket, s: Session, commits: bool): Bucket {
    var i, p := IntentOf(s.wallet, s.tx), PolicyOf(setup, s.wallet);
    var amount := if p.Some? && commits && i.tokenAmount <= TWO_63 then Tracked(p.value, i) else None;
    if amount.Some? then Credited(bucket, Key(Slot(s.wallet, i.token, today)), amount.value) else bucket
  }

  /** The amount that a rollback takes back, if its write is accepted. */
  function TakenBack(setup: Setup, s: Session, commits: bool): Option<Int64> {
    var p := PolicyOf(setup, s.wallet);
    if p.Some? && commits then Tracked(p.value, IntentOf(s.wallet, s.tx)) else None
  }

  lemma ReleaseWrites(setup: Setup, today: Day, s: Session, commits: bool)
    requires setup.hasStore
    ensures var slot := Slot(s.wallet, IntentOf(s.wallet, s.tx).token, if s.checkDay.Some? then s.checkDay.value
              else today);
            var amount := TakenBack(setup, s, commits);
            ReleaseMove(setup, today, s, commits).write == if amount.Some? then
                Some(Write(slot, 0 - amount.value as int)) else None
  {
  }

  lemma PersistedNegative(bucket: Bucket, slot: Slot, amount: Int64)
    ensures Persisted(bucket, Some(Write(slot, 0 - amount as int))) == Credited(bucket, Key(slot), Negated(amount))
  {
  }

  lemma ReleasePersists(setup: Setup, today: Day, bucket: Bucket, s: Session, commits: bool)
    requires setup.hasStore
    ensures var write := ReleaseMove(setup, today, s, commits).write;
            && Persisted(bucket, write) == ReleasedOn(setup, today, bucket, s, commits)
            && (write.Some? ==> write.value.key.wallet == s.wallet)
  {
    ReleaseWrites(setup, today, s, commits);
    if TakenBack(setup, s, commits).Some? {
      var slot := Slot(s.wallet, IntentOf(s.wallet, s.tx).token, if s.checkDay.Some? then s.checkDay.value else today);
      PersistedNegative(bucket, slot, TakenBack(setup, s, commits).value);
    }
  }

  lemma RecordPersists(setup: Setup, today: Day, bucket: Bucket, s: Session, commits: bool)
    requires setup.hasStore
    ensures var write := RecordMove(setup, today, s, commits).write;
            && Persisted(bucket, write) == RecordedOn(setup, today, bucket, s, commits)
            && (write.Some? ==> write.value.key.wallet == s.wallet)
  {
  }

  /** The rollback and the recording of the engine are the protocol's steps on the ledger. */
  lemma ReleaseRefines(setup: Setup, today: Day, bucket: Bucket, ledger: Ledger, s: Session, commits: bool)
    requires Simulates(bucket, ledger) && '/' !in s.wallet && setup.hasStore
    ensures Simulates(ReleasedOn(setup, today, bucket, s, commits),
              Written(ledger, ReleaseMove(setup, today, s, commits).write))
  {
    ReleasePersists(setup, today, bucket, s, commits);
    PersistedSimulates(bucket, ledger, ReleaseMove(setup, today, s, commits).write);
  }

  lemma RecordRefines(setup: Setup, today: Day, bucket: Bucket, ledger: Ledger, s: Session, commits: bool)
    requires Simulates(bucket, ledger) && '/' !in s.wallet && setup.hasStore
    ensures Simulates(RecordedOn(setup, today, bucket, s, commits),
              Written(ledger, RecordMove(setup, today, s, commits).write))
  {
    RecordPersists(setup, today, bucket, s, commits);
    PersistedSimulates(bucket, ledger, RecordMove(setup, today, s, commits).write);
  }

  /** The engine's own methods do just that. */
  method EngineReleases(engine: PolicyEngine, intent: PendingIntent, setup: Setup, today: Day, s: Session,
      commits: bool)
    requires engine.store != null && setup.rules == Some(engine.wallets)
    requires intent.value == IntentOf(s.wallet, s.tx) && intent.checkDay == s.checkDay
    modifies engine.store
    ensures engine.store.bucket == ReleasedOn(setup, today, old(engine.store.bucket), s, commits)
  {
    engine.ReleaseReserve(intent, today, commits);
  }

  method EngineRecords(engine: PolicyEngine, intent: PendingIntent, setup: Setup, today: Day, s: Session, commits: bool)
    requires engine.store != null && setup.rules == Some(engine.wallets)
    requires intent.value == IntentOf(s.wallet, s.tx)
    modifies engine.store
    ensures engine.store.bucket == RecordedOn(setup, today, old(engine.store.bucket), s, commits)
  {
    engine.RecordOverrideSpend(intent, today, commits);
  }

  // ----- Transactions -----

  /** The protocol's transaction for what was decoded; no intent means that it does not decode. */
  function DecodedTx(kind: string, addresses: Intents.Addresses, fields: Intents.Fields, permission: int): Tx {
    match Intents.IntentOf("", kind, addresses, fields)
    case Err(_) => Tx(kind, "", "", 0, "", 0, permission, false)
    case Ok(i) => Tx(kind, i.from, i.to, i.amountSUN, i.token, i.tokenAmount, permission, true)
  }

  /** The protocol sees the intent that is extracted from the transaction's fields. */
  lemma SameIntent(wallet: string, kind: string, addresses: Intents.Addresses, fields: Intents.Fields, permission: int)
    requires Intents.ContractAddress(addresses, fields) != "TRX"
    ensures DecodedTx(kind, addresses, fields, permission).decodes <==>
              Intents.IntentOf(wallet, kind, addresses, fields).Ok?
    ensures Intents.IntentOf(wallet, kind, addresses, fields).Ok? ==>
              IntentOf(wallet, DecodedTx(kind, addresses, fields, permission))
                  == Intents.IntentOf(wallet, kind, addresses, fields).value
  {
  }
}
