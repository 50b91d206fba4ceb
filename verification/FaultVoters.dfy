/** Counting the replicas that give up on a view. */
module FaultVoters {
  import opened Cluster

  type Table = map<nat, set<nat>>

  function VotersFor(t: Table, view: nat): set<nat> {
    if view in t then t[view] else {}
  }

  /** A view that has its quorum takes no more voters. */
  function Add(t: Table, nf: nat, view: nat, voter: nat): Table {
    if |VotersFor(t, view)| >= nf then t[view := VotersFor(t, view)]
    else t[view := VotersFor(t, view) + {voter}]
  }

  /** Is this voter the one that completes the quorum? */
  predicate Reaches(t: Table, nf: nat, view: nat, voter: nat) {
    |VotersFor(t, view)| < nf <= |VotersFor(t, view) + {voter}|
  }

  function AddAll(t: Table, nf: nat, votes: seq<(nat, nat)>): Table {
    if votes == [] then t
    else Add(AddAll(t, nf, votes[..|votes| - 1]), nf, votes[|votes| - 1].0, votes[|votes| - 1].1)
  }

  /** The voters a sequence of votes names for a view. */
  function Named(votes: seq<(nat, nat)>, view: nat): set<nat> {
    set k | 0 <= k < |votes| && votes[k].0 == view :: votes[k].1
  }

  /** `kept` are all of the `named` voters while these are fewer than a quorum,
      and a quorum of them afterwards. */
  predicate Tally(nf: nat, kept: set<nat>, named: set<nat>) {
    && kept <= named && |kept| <= nf
    && (|named| <= nf ==> kept == named) && (|named| >= nf ==> |kept| == nf)
  }

  lemma TallyStep(nf: nat, kept: set<nat>, named: set<nat>, voter: nat)
    requires Tally(nf, kept, named)
    ensures Tally(nf, if |kept| >= nf then kept else kept + {voter}, named + {voter})
  {
    SubsetSize(kept, named);
    SubsetSize(named, named + {voter});
    if |kept| < nf {
      assert kept == named;
    } else if |named + {voter}| <= nf {
      assert |named| == nf && voter in named;
      assert named + {voter} == named;
    }
  }

  /** The table counts distinct voters. */
  lemma {:induction false} TableCountsDistinct(nf: nat, votes: seq<(nat, nat)>, view: nat)
    ensures Tally(nf, VotersFor(AddAll(map[], nf, votes), view), Named(votes, view))
  {
    if votes == [] {
      assert Named(votes, view) == {};
    } else {
      var k := |votes| - 1;
      var before, named := VotersFor(AddAll(map[], nf, votes[..k]), view), Named(votes[..k], view);
      TableCountsDistinct(nf, votes[..k], view);
      TallyStep(nf, before, named, votes[k].1);
      NamedStep(votes, view);
    }
  }

  lemma NamedStep(votes: seq<(nat, nat)>, view: nat)
    requires votes != []
    ensures var k := |votes| - 1;
      Named(votes, view) == Named(votes[..k], view) + if votes[k].0 == view then {votes[k].1} else {}
  {
    var k := |votes| - 1;
    assert forall j :: 0 <= j < k ==> votes[..k][j] == votes[j];
  }

  /** Once reached, a quorum is never reached again. */
  lemma ReachedOnce(t: Table, nf: nat, view: nat, voter: nat, u: nat, w: nat, x: nat)
    requires Reaches(t, nf, view, voter) || |VotersFor(t, view)| >= nf
    ensures var t' := Add(t, nf, view, voter);
      |VotersFor(t', view)| >= nf && |VotersFor(Add(t', nf, u, w), view)| >= nf && !Reaches(t', nf, view, x)
  {
  }

  class FaultVoters {
    var voters: Table

    constructor ()
      ensures voters == map[]
    {
      voters := map[];
    }

    /** `add_voter`; the lookup creates the entry of the view. */
    method AddVoter(nf: nat, view: nat, voter: nat) returns (reached: bool)
      modifies this
      ensures voters == Add(old(voters), nf, view, voter)
      ensures reached == Reaches(old(voters), nf, view, voter)
    {
      if view !in voters {
        voters := voters[view := {}];
      }
      if |voters[view]| >= nf {
        return false;
      }
      voters := voters[view := voters[view] + {voter}];
      if |voters[view]| >= nf {
        return true;
      }
      return false;
    }
  }
}
