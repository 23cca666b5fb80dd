/**
 Counting the running VMs in the output of `tart list` (scripts/devvm_macos.py), tied to the VM table
 of `Lifecycle`: whatever order the entries come in, the count the cap is checked against is the
 number of VMs running on the host.
 */
module VmListing {
  import opened Wrappers
  import opened Lifecycle

  /** One entry of the list; either field may say that the VM runs, and cached images are listed too. */
  datatype Entry = Entry(name: Name, local: bool, state: string, running: Option<bool>)

  predicate Counts(e: Entry) {
    e.local && (e.state == "running" || e.running == Some(true))
  }

  function CountRunning(vms: seq<Entry>): nat {
    if vms == [] then 0 else (if Counts(vms[0]) then 1 else 0) + CountRunning(vms[1..])
  }

  predicate CheckCap(running: nat) {
    running < MAX_CONCURRENT_VMS
  }

  /**
   A truthful list: each name once, the local entries exactly the VM table; of a running VM one field or the
   other says so, of any other neither does.
   */
  ghost predicate Truthful(h: Host, vms: seq<Entry>) {
    && (forall i, j | 0 <= i < j < |vms| :: vms[i].name != vms[j].name)
    && (forall i | 0 <= i < |vms| && vms[i].local ::
          && vms[i].name in h.vms
          && (h.vms[vms[i].name].state.Running? ==> vms[i].state == "running" || vms[i].running == Some(true))
          && (!h.vms[vms[i].name].state.Running? ==> vms[i].state != "running" && vms[i].running != Some(true)))
    && (forall n | n in h.vms :: exists i :: 0 <= i < |vms| && vms[i].local && vms[i].name == n)
  }

  ghost function CountedNames(vms: seq<Entry>): set<Name> {
    set i | 0 <= i < |vms| && Counts(vms[i]) :: vms[i].name
  }

  lemma {:induction false} CountIsCardinality(vms: seq<Entry>)
    requires forall i, j | 0 <= i < j < |vms| :: vms[i].name != vms[j].name
    ensures CountRunning(vms) == |CountedNames(vms)|
  {
    if vms != [] {
      var rest := vms[1..];
      CountIsCardinality(rest);
      assert forall i | 0 <= i < |rest| :: rest[i] == vms[i + 1];
      assert vms[0].name !in CountedNames(rest);
      if Counts(vms[0]) {
        assert CountedNames(vms) == CountedNames(rest) + {vms[0].name} by {
          forall n | n in CountedNames(vms) ensures n in CountedNames(rest) + {vms[0].name} {
            var i :| 0 <= i < |vms| && Counts(vms[i]) && vms[i].name == n;
            if i > 0 { assert rest[i - 1] == vms[i]; }
          }
        }
      } else {
        assert CountedNames(vms) == CountedNames(rest) by {
          forall n | n in CountedNames(vms) ensures n in CountedNames(rest) {
            var i :| 0 <= i < |vms| && Counts(vms[i]) && vms[i].name == n;
            assert rest[i - 1] == vms[i];
          }
        }
      }
    }
  }

  /** The cap check on any truthful list passes exactly when the host has room for one more VM. */
  lemma ListCountsTheHost(h: Host, vms: seq<Entry>)
    requires Truthful(h, vms)
    ensures CountRunning(vms) == |RunningVms(h)|
    ensures CheckCap(CountRunning(vms)) <==> |RunningVms(h)| < MAX_CONCURRENT_VMS
  {
    CountIsCardinality(vms);
    assert CountedNames(vms) == RunningVms(h);
  }
}
