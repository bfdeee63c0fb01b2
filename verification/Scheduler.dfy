/** The service's own transactions driven by an arbitrary schedule: what the interleaving results say of the
    transition system holds of the code that writes the tables. */
module Scheduler {
  import opened Wrappers
  import opened ReportModel
  import opened Interleaving
  import opened EventSourcing
  import Store = ReportStore

  class Scheduler {
    const store: Store.ReportStore
    var open: map<TxId, Pending>

    ghost function State(): System
      reads this, store
    {
      System(store.Db(), open)
    }

    constructor (dir: Directory)
      ensures State() == INITIAL && store.Valid() && store.dir == dir && fresh(store)
    {
      store := new Store.ReportStore(dir);
      open := map[];
    }

    /** The write half of an open transaction, by the service method for its mutation. */
    method CommitPending(p: Pending) returns (r: Result<Store.MutationResult, Error>)
      requires store.Valid()
      modifies store
      ensures store.Valid()
      ensures Store.Settles(old(store.Db()), store.Db(), Commit(old(store.Db()), p), r)
    {
      match p.mutation
      case AssignCleaner(cleaner, due, note) => r := store.CommitAssign(p.actor, p.existing, cleaner, due, note);
      case CleanerAccept => r := store.CommitAccept(p.actor, p.existing);
      case CleanerReject(reason) => r := store.CommitCleanerReject(p.actor, p.existing, reason);
      case CleanerStart => r := store.CommitStart(p.actor, p.existing);
      case CleanerResolve(note, inputs) => r := store.CommitResolve(p.actor, p.existing, note, inputs);
      case SupervisorEndorse(note) => r := store.CommitEndorse(p.actor, p.existing, note);
      case SupervisorReject(reason) => r := store.CommitSupervisorReject(p.actor, p.existing, reason);
    }

    method Perform(a: Action)
      requires store.Valid()
      modifies this, store
      ensures store.Valid()
      ensures State() == Step(old(State()), store.dir, a)
    {
      match a
      case Read(tx, actor, id, m) =>
        var r := store.Begin(actor, id, m);
        if tx !in open && r.Success? {
          open := open[tx := r.value];
        }
      case Write(tx) =>
        if tx in open {
          var r := CommitPending(open[tx]);
          open := open - {tx};
        }
      case New(actor, id, input, hint) =>
        var r := store.CreateReport(actor, id, input, hint);
      case ForeignEvent =>
        store.nextSeq := store.nextSeq + 1;
    }

    /** Any schedule, performed from empty tables, leaves tables that equal the serial run of the committed
        transactions and whose log rebuilds every row. */
    method PerformAll(actions: seq<Action>)
      requires store.Valid() && State() == INITIAL
      modifies this, store
      ensures store.Valid()
      ensures State() == Run(INITIAL, store.dir, actions)
      ensures Serial(EMPTY_DB, store.dir, Log(INITIAL, store.dir, actions)) == Success(store.Db())
      ensures History(store.Db()) && Informed(store.Db())
    {
      for i := 0 to |actions|
        invariant store.Valid()
        invariant Run(State(), store.dir, actions[i..]) == Run(INITIAL, store.dir, actions)
      {
        assert actions[i..][0] == actions[i] && actions[i..][1..] == actions[i + 1..];
        Perform(actions[i]);
      }
      InitialInv(store.dir);
      Serialisable(INITIAL, store.dir, actions);
      ReachableHistory(store.dir, actions);
      ReporterHearsOfEveryEvent(store.dir, actions);
    }
  }
}
