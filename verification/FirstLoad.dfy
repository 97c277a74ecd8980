/** Where the invariants begin: a system at rest has those of every run, and a file that was just loaded has those of
approval and history. */
module FirstLoad {
  import opened Modifications
  import opened DiffContext
  import opened DiffProtocol
  import Approval
  import DiffSafety
  import History
  import Linearization
  import LoadingFlag
  import MatchRebuild
  import RepairSafety

  lemma StartsInOrder()
    ensures DiffSafety.Ordered(Initially())
    ensures LoadingFlag.Known(Initially().store) && LoadingFlag.FlagsRight(Initially().store)
    ensures LoadingFlag.RegisteredAreLatest(Initially().store)
    ensures Linearization.AllUndisturbed(Initially()) && RepairSafety.Budgeted(Initially())
  {
  }

  function LoadedContent(a: LoadArgs, ready: Answer): string
    requires ready.Ready?
  {
    if ready.rebuilt.Some? then ready.rebuilt.value else InitialContent(a)
  }

  /** If the loaded text is the rebuild of its original under the loaded verdicts and every block was placed, approval
      starts out coherent. */
  lemma LoadedIsCoherent(c: Context, a: LoadArgs, ready: Answer, other: bool, ref: nat)
    requires ready.Ready? && AllPlaced(ready.mods)
    requires LoadedContent(a, ready) == MatchRebuild.Rebuilt(a.content, ready.mods)
    ensures Approval.Coherent(Approval.Basis(a.document, a.content, Shapes(ready.mods)), OpenLoaded(c, a, ready, other, ref))
  {
    hide InitialContent, MatchRebuild.Rebuilt, Sync;
    forall m | m in Shapes(ready.mods) ensures Placed(m) {
      var i :| 0 <= i < |ready.mods| && Shapes(ready.mods)[i] == m;
      assert Placed(ready.mods[i]);
    }
  }

  /** The history of a loaded file is empty, hence sound. */
  lemma LoadedIsSound(c: Context, a: LoadArgs, ready: Answer, other: bool, ref: nat)
    requires ready.Ready?
    ensures History.Sound(OpenLoaded(c, a, ready, other, ref))
  {
    hide Sync, Put, Without;
  }
}
