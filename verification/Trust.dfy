/** The trust graph the keeper's stores describe. */
module Trust {
  import opened Types
  import opened Reputation
  import opened Scores

  /** Vouches with an id below `n`, in id order. */
  function VouchesBelow(s: State, n: nat): seq<Vouch> {
    if n == 0 then [] else VouchesBelow(s, n - 1) + (if n - 1 in s.vouches then [s.vouches[n - 1]] else [])
  }

  /** Every released escrow is a paid job. */
  function JobsBelow(s: State, n: nat): seq<JobEdge> {
    if n == 0 then []
    else
      JobsBelow(s, n - 1)
      + (if n - 1 in s.escrows && s.escrows[n - 1].status == Released
         then [JobEdge(s.escrows[n - 1].payer, s.escrows[n - 1].payee, s.escrows[n - 1].amount)] else [])
  }

  /** A juror that voted for a payee whom the jury upheld endorses the job. */
  function Endorsements(votes: seq<Vote>, e: Escrow, k: nat): seq<JobEdge>
    requires k <= |votes|
  {
    if k == 0 then []
    else
      Endorsements(votes, e, k - 1)
      + (if votes[k - 1].accept then [JobEdge(votes[k - 1].juror, e.payee, e.amount)] else [])
  }

  function EndorsementsBelow(s: State, n: nat): seq<JobEdge> {
    if n == 0 then []
    else
      EndorsementsBelow(s, n - 1)
      + (if n - 1 in s.disputes && s.disputes[n - 1].resolution == Accept && s.disputes[n - 1].escrowId in s.escrows
         then Endorsements(s.disputes[n - 1].votes, s.escrows[s.disputes[n - 1].escrowId], |s.disputes[n - 1].votes|)
         else [])
  }

  function TrustEdges(s: State): (edges: seq<TrustEdge>)
    ensures Weighted(edges)
  {
    var vouches := VouchesBelow(s, s.vouchSeq);
    var jobs := JobsBelow(s, s.escrowSeq) + EndorsementsBelow(s, s.disputeSeq);
    EdgesWeighted(vouches, jobs);
    Edges(vouches, jobs)
  }

  /** Nobody outside `ring` has vouched for a member, paid a member for a released escrow, or endorsed
      a member's job as a juror. */
  predicate Isolated(s: State, ring: set<Addr>) {
    && (forall id | id in s.vouches && s.vouches[id].to in ring :: s.vouches[id].from in ring)
    && (forall id | id in s.escrows && s.escrows[id].status == Released && s.escrows[id].payee in ring :: s.escrows[id].payer in ring)
    && (forall id | id in s.disputes && s.disputes[id].resolution == Accept && s.disputes[id].escrowId in s.escrows
                    && s.escrows[s.disputes[id].escrowId].payee in ring ::
          forall v | v in s.disputes[id].votes && v.accept :: v.juror in ring)
  }

  predicate JobsStayIn(jobs: seq<JobEdge>, ring: set<Addr>) {
    forall j | j in jobs && j.payee in ring :: j.payer in ring
  }

  lemma {:induction false} VouchesStayIn(s: State, ring: set<Addr>, n: nat)
    requires Isolated(s, ring)
    ensures forall v | v in VouchesBelow(s, n) && v.to in ring :: v.from in ring
  {
    if n > 0 { VouchesStayIn(s, ring, n - 1); }
  }

  lemma {:induction false} PaidJobsStayIn(s: State, ring: set<Addr>, n: nat)
    requires Isolated(s, ring)
    ensures JobsStayIn(JobsBelow(s, n), ring)
  {
    if n > 0 { PaidJobsStayIn(s, ring, n - 1); }
  }

  lemma {:induction false} EndorsedStayIn(votes: seq<Vote>, e: Escrow, ring: set<Addr>, k: nat)
    requires k <= |votes| && (e.payee in ring ==> forall v | v in votes && v.accept :: v.juror in ring)
    ensures JobsStayIn(Endorsements(votes, e, k), ring)
  {
    if k > 0 { EndorsedStayIn(votes, e, ring, k - 1); }
  }

  lemma {:induction false} EndorsementsStayIn(s: State, ring: set<Addr>, n: nat)
    requires Isolated(s, ring)
    ensures JobsStayIn(EndorsementsBelow(s, n), ring)
  {
    if n > 0 {
      EndorsementsStayIn(s, ring, n - 1);
      if n - 1 in s.disputes && s.disputes[n - 1].resolution == Accept && s.disputes[n - 1].escrowId in s.escrows {
        var d := s.disputes[n - 1];
        EndorsedStayIn(d.votes, s.escrows[d.escrowId], ring, |d.votes|);
      }
    }
  }

  lemma {:induction false} VouchEdgesStayIn(vouches: seq<Vouch>, ring: set<Addr>)
    requires forall v | v in vouches && v.to in ring :: v.from in ring
    ensures NoWayIn(VouchEdges(vouches), ring)
    decreases |vouches|
  {
    if vouches != [] { VouchEdgesStayIn(vouches[..|vouches| - 1], ring); }
  }

  lemma {:induction false} JobEdgesStayIn(jobs: seq<JobEdge>, ring: set<Addr>)
    requires JobsStayIn(jobs, ring)
    ensures NoWayIn(JobEdges(jobs), ring)
    decreases |jobs|
  {
    if jobs != [] { JobEdgesStayIn(jobs[..|jobs| - 1], ring); }
  }

  /** Accounts that only vouch for, pay and endorse one another have no reputation at all. */
  lemma IsolatedScoresZero(s: State, anchors: seq<Addr>, scores: map<Addr, real>, ring: set<Addr>)
    requires Isolated(s, ring) && SomeAnchor(anchors) && forall a | a in anchors :: a !in ring
    requires IsScores(TrustEdges(s), anchors, scores)
    ensures forall a | a in ring && a in scores :: scores[a] == 0.0
  {
    hide Isolated, IsScores, Weighted, VouchesBelow, JobsBelow, EndorsementsBelow, VouchEdges, JobEdges;
    VouchesStayIn(s, ring, s.vouchSeq);
    PaidJobsStayIn(s, ring, s.escrowSeq);
    EndorsementsStayIn(s, ring, s.disputeSeq);
    VouchEdgesStayIn(VouchesBelow(s, s.vouchSeq), ring);
    JobEdgesStayIn(JobsBelow(s, s.escrowSeq) + EndorsementsBelow(s, s.disputeSeq), ring);
    RingScoresZero(TrustEdges(s), anchors, scores, ring);
  }
}
