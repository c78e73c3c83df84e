/** Lifecycles sharing one journal: when the recovery scan reports an intent id. */
module Lifecycles {
  import opened Wrappers
  import opened Journal

  // owner[i] names the lifecycle that wrote record i. A lifecycle opens once, writes
  // its later stages under its own intent id, and writes nothing after its one close.
  ghost predicate Interleaving(log: seq<Record>, owner: seq<int>) {
    && |owner| == |log|
    && forall i :: 0 <= i < |log| ==> Follows(log, owner, i)
  }

  ghost predicate Follows(log: seq<Record>, owner: seq<int>, i: int)
    requires 0 <= i < |log| == |owner|
  {
    if log[i].stage.IntentCreated? then
      forall j :: 0 <= j < i ==> owner[j] != owner[i]
    else
      && (exists j :: 0 <= j < i && OpenedBy(log, owner, j, owner[i], log[i].intentID))
      && (forall j :: 0 <= j < i && owner[j] == owner[i] ==> !Closing(log[j].stage))
  }

  ghost predicate OpenedBy(log: seq<Record>, owner: seq<int>, j: int, who: int, id: string)
    requires |owner| == |log|
  {
    0 <= j < |log| && owner[j] == who && log[j].stage.IntentCreated? && log[j].intentID == id
  }

  ghost predicate ClosedBy(log: seq<Record>, owner: seq<int>, who: int)
    requires |owner| == |log|
  {
    exists j :: 0 <= j < |log| && owner[j] == who && Closing(log[j].stage)
  }

  // The lifecycles of an id that were opened and never closed.
  ghost function Unclosed(log: seq<Record>, owner: seq<int>, id: string): set<int>
    requires |owner| == |log|
  {
    set i | 0 <= i < |log| && OpenedBy(log, owner, i, owner[i], id) && !ClosedBy(log, owner, owner[i]) :: owner[i]
  }

  lemma InterleavingPrefix(log: seq<Record>, owner: seq<int>, n: nat)
    requires Interleaving(log, owner) && n <= |log|
    ensures Interleaving(log[..n], owner[..n])
  {
    forall i | 0 <= i < n ensures Follows(log[..n], owner[..n], i) {
      assert Follows(log, owner, i);
      if !log[i].stage.IntentCreated? {
        var j :| 0 <= j < i && OpenedBy(log, owner, j, owner[i], log[i].intentID);
        assert OpenedBy(log[..n], owner[..n], j, owner[i], log[i].intentID);
      }
    }
  }

  // What the last record does to the set of unclosed lifecycles.
  lemma UnclosedStep(log: seq<Record>, owner: seq<int>, id: string)
    requires log != [] && Interleaving(log, owner)
    ensures var n := |log| - 1;
            var before := Unclosed(log[..n], owner[..n], id);
            if log[n].intentID != id || log[n].stage.SendStarted? then Unclosed(log, owner, id) == before
            else if log[n].stage.IntentCreated? then
              owner[n] !in before && Unclosed(log, owner, id) == before + {owner[n]}
            else owner[n] in before && Unclosed(log, owner, id) == before - {owner[n]}
  {
    var n := |log| - 1;
    var l, o := log[..n], owner[..n];
    assert Follows(log, owner, n);
    forall who
      ensures ClosedBy(log, owner, who) <==> ClosedBy(l, o, who) || (owner[n] == who && Closing(log[n].stage)) {
      if ClosedBy(l, o, who) {
        var j :| 0 <= j < n && o[j] == who && Closing(l[j].stage);
        assert owner[j] == who && Closing(log[j].stage);
      }
    }
    forall j, who ensures OpenedBy(log, owner, j, who, id) <==>
                          || OpenedBy(l, o, j, who, id)
                          || (j == n && owner[n] == who && log[n].stage.IntentCreated? && log[n].intentID == id) {}
    InterleavingPrefix(log, owner, n);
    if log[n].stage.IntentCreated? {
      NotClosedBeforeOpen(log, owner, n);
    } else {
      var j :| 0 <= j < n && OpenedBy(log, owner, j, owner[n], log[n].intentID);
      assert OpenedBy(l, o, j, owner[n], log[n].intentID);
      assert !ClosedBy(l, o, owner[n]);
      if log[n].intentID != id {
        OneOpening(log, owner, j, owner[n]);
      }
    }
  }

  lemma NotClosedBeforeOpen(log: seq<Record>, owner: seq<int>, n: nat)
    requires Interleaving(log, owner) && n < |log| && log[n].stage.IntentCreated?
    ensures !ClosedBy(log[..n], owner[..n], owner[n])
    ensures forall j :: 0 <= j < n ==> owner[j] != owner[n]
  {
    assert Follows(log, owner, n);
  }

  lemma OneOpening(log: seq<Record>, owner: seq<int>, j: nat, who: int)
    requires Interleaving(log, owner) && j < |log| && log[j].stage.IntentCreated? && owner[j] == who
    ensures forall k :: 0 <= k < |log| && owner[k] == who && log[k].stage.IntentCreated? ==> k == j
  {
    forall k | 0 <= k < |log| && owner[k] == who && log[k].stage.IntentCreated? ensures k == j {
      assert Follows(log, owner, k) && Follows(log, owner, j);
    }
  }

  // Opens minus closes counts the unclosed lifecycles of an id.
  lemma {:induction false} OpenCount(log: seq<Record>, owner: seq<int>, id: string)
    requires Interleaving(log, owner)
    ensures Opens(log, id) == Closes(log, id) + |Unclosed(log, owner, id)|
  {
    if log != [] {
      var n := |log| - 1;
      InterleavingPrefix(log, owner, n);
      OpenCount(log[..n], owner[..n], id);
      UnclosedStep(log, owner, id);
    }
  }

  // The scan reports an id exactly when some lifecycle of it is unclosed.
  lemma ReportedIffUnclosed(log: seq<Record>, owner: seq<int>, id: string)
    requires Interleaving(log, owner)
    ensures Reported(log, id) <==> Unclosed(log, owner, id) != {}
  {
    OpenCount(log, owner, id);
    if Reported(log, id) {
      var i :| IsLast(log, id, i) && (!Closing(log[i].stage) || Opens(log, id) > Closes(log, id));
      if !Closing(log[i].stage) {
        LastOpenIsUnclosed(log, owner, id, i);
      }
    }
    if Unclosed(log, owner, id) != {} {
      var i :| 0 <= i < |log| && OpenedBy(log, owner, i, owner[i], id) && !ClosedBy(log, owner, owner[i]);
      LastExists(log, id, i);
    }
  }

  lemma LastOpenIsUnclosed(log: seq<Record>, owner: seq<int>, id: string, i: nat)
    requires Interleaving(log, owner) && IsLast(log, id, i) && !Closing(log[i].stage)
    ensures owner[i] in Unclosed(log, owner, id)
  {
    assert Follows(log, owner, i);
    var o := i;
    if !log[i].stage.IntentCreated? {
      o :| 0 <= o < i && OpenedBy(log, owner, o, owner[i], id);
    }
    assert OpenedBy(log, owner, o, owner[o], id);
    if ClosedBy(log, owner, owner[i]) {
      var j :| 0 <= j < |log| && owner[j] == owner[i] && Closing(log[j].stage);
      assert Follows(log, owner, j);
      var k :| 0 <= k < j && OpenedBy(log, owner, k, owner[j], log[j].intentID);
      OneOpening(log, owner, o, owner[i]);
    }
  }

  lemma LastExists(log: seq<Record>, id: string, i: nat)
    requires i < |log| && log[i].intentID == id
    ensures exists k :: IsLast(log, id, k)
    decreases |log| - i
  {
    if !IsLast(log, id, i) {
      var j :| i < j < |log| && log[j].intentID == id;
      LastExists(log, id, j);
    }
  }

  // ---- the record an id is represented by ----

  // The record that a reported id is represented by.
  ghost predicate Speaks(log: seq<Record>, e: Record) {
    Reported(log, e.intentID) && Represents(log, e.intentID, e)
  }

  lemma LastOpenExists(log: seq<Record>, id: string, i: nat)
    requires i < |log| && log[i].intentID == id && !Closing(log[i].stage)
    ensures exists k :: IsLastOpen(log, id, k)
    decreases |log| - i
  {
    if !IsLastOpen(log, id, i) {
      var j :| i < j < |log| && log[j].intentID == id && !Closing(log[j].stage);
      LastOpenExists(log, id, j);
    }
  }

  // The representative of a reported id is an unresolved-stage record.
  lemma RepresentativeIsOpen(log: seq<Record>, id: string, r: Record)
    requires Reported(log, id) && Represents(log, id, r)
    ensures !Closing(r.stage) && exists k :: IsLastOpen(log, id, k) && r == log[k]
  {
    var i :| IsLast(log, id, i) && (!Closing(log[i].stage) || Opens(log, id) > Closes(log, id));
    if !Closing(log[i].stage) {
      assert IsLastOpen(log, id, i);
    } else {
      OpensNeedOpen(log, id);
      var k :| 0 <= k < |log| && log[k].intentID == id && log[k].stage.IntentCreated?;
      LastOpenExists(log, id, k);
    }
  }

  lemma OpensNeedOpen(log: seq<Record>, id: string)
    requires Opens(log, id) > 0
    ensures exists k :: 0 <= k < |log| && log[k].intentID == id && log[k].stage.IntentCreated?
  {
    var n := |log| - 1;
    if !(log[n].intentID == id && log[n].stage.IntentCreated?) {
      OpensNeedOpen(log[..n], id);
      var k :| 0 <= k < n && log[..n][k].intentID == id && log[..n][k].stage.IntentCreated?;
      assert log[k].intentID == id;
    }
  }

  // ---- reconciliation terminates ----

  // However many reconcile runs follow, until a new placement opens the id they write
  // at most as many closing records of it as it has unclosed lifecycles now, and each
  // one lowers that number by one.
  lemma ClosesAreBounded(log: seq<Record>, more: seq<Record>, owner: seq<int>, id: string)
    requires Interleaving(log + more, owner)
    requires forall i :: 0 <= i < |more| ==> !more[i].stage.IntentCreated?
    ensures Closes(more, id) <= |Unclosed(log, owner[..|log|], id)|
    ensures |Unclosed(log + more, owner, id)| == |Unclosed(log, owner[..|log|], id)| - Closes(more, id)
  {
    InterleavingPrefix(log + more, owner, |log|);
    assert (log + more)[..|log|] == log;
    OpenCount(log, owner[..|log|], id);
    OpenCount(log + more, owner, id);
    CountsAppend(log, more, id);
  }

  lemma {:induction false} CountsAppend(log: seq<Record>, more: seq<Record>, id: string)
    ensures Opens(log + more, id) == Opens(log, id) + Opens(more, id)
    ensures Closes(log + more, id) == Closes(log, id) + Closes(more, id)
    ensures (forall i :: 0 <= i < |more| ==> !more[i].stage.IntentCreated?) ==> Opens(more, id) == 0
  {
    if more == [] {
      assert log + more == log;
    } else {
      var m := |more| - 1;
      assert (log + more)[..|log| + m] == log + more[..m];
      CountsAppend(log, more[..m], id);
    }
  }

  // ---- a representative of another lifecycle ----

  // Two lifecycles under one id, the first of which was sent: the scan represents the
  // id by the second one's intent-created record, so the stage of the entry it returns
  // does not tell whether anything was sent under the id.
  lemma SharedIdHidesSend(created: Record, sent: Record)
    requires created.stage.IntentCreated? && sent == created.(stage := SendStarted)
    ensures var log := [created, sent, created];
            && Interleaving(log, [1, 1, 2])
            && Represents(log, created.intentID, created) && Reported(log, created.intentID)
            && log[1].stage.SendStarted?
  {
    var log := [created, sent, created];
    var owner := [1, 1, 2];
    assert OpenedBy(log, owner, 0, 1, created.intentID);
    assert Follows(log, owner, 0);
    assert Follows(log, owner, 1);
    assert Follows(log, owner, 2);
    assert IsLastOpen(log, created.intentID, 2);
    assert IsLast(log, created.intentID, 2);
  }

  // Closing it once leaves the id reported, by that same record.
  lemma SharedIdAgain(created: Record, sent: Record, close: Record)
    requires created.stage.IntentCreated? && sent == created.(stage := SendStarted)
    requires close == created.(stage := Reconciled)
    ensures var log := [created, sent, created, close];
            Reported(log, created.intentID) && Represents(log, created.intentID, created)
  {
    var l4, l3, l2, l1 := [created, sent, created, close], [created, sent, created], [created, sent], [created];
    assert l4[..3] == l3 && l3[..2] == l2 && l2[..1] == l1 && l1[..0] == [];
    assert AggOf(l1, created.intentID) == Some(Agg(1, 0, created, Some(created)));
    assert AggOf(l2, created.intentID) == Some(Agg(1, 0, sent, Some(sent)));
    assert AggOf(l3, created.intentID) == Some(Agg(2, 0, created, Some(created)));
    assert AggOf(l4, created.intentID) == Some(Agg(2, 1, close, Some(created)));
    AggReported(l4, created.intentID);
  }

  // Closing that representative twice leaves the sent lifecycle unreported.
  lemma SharedIdLosesSend(created: Record, sent: Record, close: Record)
    requires created.stage.IntentCreated? && sent == created.(stage := SendStarted)
    requires close == created.(stage := Reconciled)
    ensures !Reported([created, sent, created, close, close], created.intentID)
  {
    var log := [created, sent, created, close, close];
    var id := created.intentID;
    var l4, l3, l2, l1 := [created, sent, created, close], [created, sent, created], [created, sent], [created];
    assert log[..4] == l4 && l4[..3] == l3 && l3[..2] == l2 && l2[..1] == l1 && l1[..0] == [];
    assert Opens(l1, id) == 1 && Opens(l2, id) == 1 && Opens(l3, id) == 2;
    assert Closes(l1, id) == 0 && Closes(l2, id) == 0 && Closes(l3, id) == 0;
    assert Opens(l4, id) == 2 && Closes(l4, id) == 1;
  }
}
