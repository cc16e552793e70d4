/** The remapping table between recorded thread ids and live pids. */
module TidMapping {
  import opened Common
  import opened Scheduling
  import opened Recording

  datatype TidMapError =
    | RecordedRebound(recorded: Tid, existing: Pid, attempted: Pid)
    | LiveRebound(live: Pid, boundTo: Tid, attemptedTid: Tid)

  datatype TidMap = TidMap(toLive: map<Tid, Pid>, toRecorded: map<Pid, Tid>) {

    /** The two halves undo each other. */
    ghost predicate Inverse() {
      && (forall t :: t in toLive ==> toLive[t] in toRecorded && toRecorded[toLive[t]] == t)
      && (forall p :: p in toRecorded ==> toRecorded[p] in toLive && toLive[toRecorded[p]] == p)
    }

    /** Binding succeeds exactly when neither side is bound elsewhere, and keeps
        the halves inverse. */
    function Bind(recorded: Tid, live: Pid): (r: Result<TidMap, TidMapError>)
      ensures r.Ok? ==> r.value.toLive == toLive[recorded := live]
                        && r.value.toRecorded == toRecorded[live := recorded]
      ensures Inverse() ==>
                (r.Ok? <==> (recorded in toLive && toLive[recorded] == live)
                            || (recorded !in toLive && live !in toRecorded))
      ensures Inverse() && r.Ok? ==> r.value.Inverse()
    {
      if recorded in toLive && toLive[recorded] != live then
        Err(RecordedRebound(recorded, toLive[recorded], live))
      else if live in toRecorded && toRecorded[live] != recorded then
        Err(LiveRebound(live, toRecorded[live], recorded))
      else
        Ok(TidMap(toLive[recorded := live], toRecorded[live := recorded]))
    }

    function Unbind(recorded: Tid): (r: TidMap)
      ensures r.toLive == toLive - {recorded}
      ensures Inverse() ==> r.Inverse()
    {
      if recorded in toLive
      then TidMap(toLive - {recorded}, toRecorded - {toLive[recorded]})
      else TidMap(toLive - {recorded}, toRecorded)
    }
  }

  const EmptyTidMap := TidMap(map[], map[])

  /** The table as the replayer updates it in place. */
  class TidTable {
    var toLive: map<Tid, Pid>
    var toRecorded: map<Pid, Tid>

    ghost function View(): TidMap
      reads this
    {
      TidMap(toLive, toRecorded)
    }

    constructor ()
      ensures View() == EmptyTidMap
    {
      toLive, toRecorded := map[], map[];
    }

    method Bind(recorded: Tid, live: Pid) returns (outcome: Result<(), TidMapError>)
      modifies this
      ensures match old(View()).Bind(recorded, live)
              case Ok(bound) => outcome == Ok(()) && View() == bound
              case Err(e) => outcome == Err(e) && View() == old(View())
    {
      if recorded in toLive && toLive[recorded] != live {
        return Err(RecordedRebound(recorded, toLive[recorded], live));
      }
      if live in toRecorded && toRecorded[live] != recorded {
        return Err(LiveRebound(live, toRecorded[live], recorded));
      }
      toLive := toLive[recorded := live];
      toRecorded := toRecorded[live := recorded];
      return Ok(());
    }

    method Unbind(recorded: Tid)
      modifies this
      ensures View() == old(View()).Unbind(recorded)
    {
      if recorded in toLive {
        toRecorded := toRecorded - {toLive[recorded]};
      }
      toLive := toLive - {recorded};
    }
  }
}
