/**
 * frontend/src/pages/Dashboard.js: the four counters computed from the RFP
 * list in `fetchRFPs`, and the badge class of a status.
 */
module DashboardStats {
  import opened RfpModel

  /** The `stats` object. */
  datatype Stats = Stats(totalRFPs: nat, sentRFPs: nat, inReview: nat, completed: nat)

  /** `rfpData.filter(rfp => rfp.status === name).length`. */
  function CountStatus(rfps: seq<Rfp>, name: string): (n: nat)
    ensures n <= |rfps|
    decreases |rfps|
  {
    if rfps == [] then 0
    else CountStatus(rfps[..|rfps| - 1], name) + (if StatusName(rfps[|rfps| - 1].status) == name then 1 else 0)
  }

  /** The stored status names, in list order. */
  function Names(rfps: seq<Rfp>): (r: seq<string>)
    ensures |r| == |rfps| && forall i :: 0 <= i < |rfps| ==> r[i] == StatusName(rfps[i].status)
  {
    seq(|rfps|, i requires 0 <= i < |rfps| => StatusName(rfps[i].status))
  }

  /** The stats `fetchRFPs` stores. */
  function StatsOf(rfps: seq<Rfp>): Stats {
    Stats(|rfps|, CountStatus(rfps, "sent"), CountStatus(rfps, "in-review"), CountStatus(rfps, "completed"))
  }

  /** The names of a list are the names of all but its last RFP, then the last one's. */
  lemma NamesSnoc(rfps: seq<Rfp>)
    requires rfps != []
    ensures Names(rfps) == Names(rfps[..|rfps| - 1]) + [StatusName(rfps[|rfps| - 1].status)]
  {
    var pre := rfps[..|rfps| - 1];
    forall i | 0 <= i < |pre| ensures Names(rfps)[i] == Names(pre)[i] {
      assert pre[i] == rfps[i];
    }
  }

  /** Each counter is the number of RFPs whose status is exactly that name. */
  lemma {:induction false} CountIsMultiplicity(rfps: seq<Rfp>, name: string)
    ensures CountStatus(rfps, name) == multiset(Names(rfps))[name]
    decreases |rfps|
  {
    if rfps != [] {
      var pre := rfps[..|rfps| - 1];
      var last := StatusName(rfps[|rfps| - 1].status);
      CountIsMultiplicity(pre, name);
      NamesSnoc(rfps);
      var ns := Names(pre);
      assert multiset(ns + [last]) == multiset(ns) + multiset{last};
    }
  }

  /** The five statuses partition the list. */
  lemma {:induction false} StatusesPartition(rfps: seq<Rfp>)
    ensures CountStatus(rfps, "draft") + CountStatus(rfps, "sent") + CountStatus(rfps, "in-review")
      + CountStatus(rfps, "completed") + CountStatus(rfps, "cancelled") == |rfps|
    decreases |rfps|
  {
    if rfps != [] {
      StatusesPartition(rfps[..|rfps| - 1]);
    }
  }

  /** The three status counters never add up to more than the total. */
  lemma CountersBounded(rfps: seq<Rfp>)
    ensures StatsOf(rfps).totalRFPs == |rfps|
    ensures StatsOf(rfps).sentRFPs + StatsOf(rfps).inReview + StatsOf(rfps).completed <= StatsOf(rfps).totalRFPs
    ensures StatsOf(rfps).sentRFPs + StatsOf(rfps).inReview + StatsOf(rfps).completed == StatsOf(rfps).totalRFPs
      <==> CountStatus(rfps, "draft") + CountStatus(rfps, "cancelled") == 0
  {
    StatusesPartition(rfps);
  }

  /** A draft or cancelled RFP adds to the total and to none of the three counters. */
  lemma UncountedStatuses(rfps: seq<Rfp>, r: Rfp)
    requires r.status == Draft || r.status == Cancelled
    ensures StatsOf(rfps + [r]) == StatsOf(rfps).(totalRFPs := |rfps| + 1)
  {
    assert (rfps + [r])[..|rfps + [r]| - 1] == rfps;
  }

  /** An RFP with one of the three counted statuses adds one to exactly that counter. */
  lemma CountedStatus(rfps: seq<Rfp>, r: Rfp)
    requires r.status == Sent || r.status == InReview || r.status == Completed
    ensures var before := StatsOf(rfps); var after := StatsOf(rfps + [r]);
      && after.totalRFPs == before.totalRFPs + 1
      && after.sentRFPs == before.sentRFPs + (if r.status == Sent then 1 else 0)
      && after.inReview == before.inReview + (if r.status == InReview then 1 else 0)
      && after.completed == before.completed + (if r.status == Completed then 1 else 0)
  {
    assert (rfps + [r])[..|rfps + [r]| - 1] == rfps;
  }

  const Plain := "status-badge"

  /** `getStatusBadgeClass(status)`: the four known statuses get their own class, anything else the plain badge. */
  function BadgeClass(status: string): (c: string)
    ensures status == "draft" ==> c == "status-badge status-draft"
    ensures status == "sent" ==> c == "status-badge status-sent"
    ensures status == "in-review" ==> c == "status-badge status-review"
    ensures status == "completed" ==> c == "status-badge status-completed"
    ensures c == Plain <==> status !in ["draft", "sent", "in-review", "completed"]
  {
    match status
    case "draft" => "status-badge status-draft"
    case "sent" => "status-badge status-sent"
    case "in-review" => "status-badge status-review"
    case "completed" => "status-badge status-completed"
    case _ => Plain
  }

  /** Of the stored statuses, only `cancelled` falls through to the plain badge, and the four classes differ. */
  lemma BadgeOfStored(s: RfpStatus, t: RfpStatus)
    ensures BadgeClass(StatusName(s)) == Plain <==> s == Cancelled
    ensures s != t && s != Cancelled && t != Cancelled ==> BadgeClass(StatusName(s)) != BadgeClass(StatusName(t))
  {
  }
}
