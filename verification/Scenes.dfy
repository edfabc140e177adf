/** Scene expansion (`src/engine.rs`, `dispatch_at`): activating a scene dispatches its
    member commands at the same causal depth, and a member may itself be a scene. The
    cascade-depth backstop does not bound that recursion; only the scene graph does. */
module Scenes {
  import opened Model

  type SceneTable = map<SceneId, seq<Command>>

  /** No chain of activations out of `commands` enters a scene outside `avail`, or the same
      scene twice. Computable before the call, scene by scene. */
  predicate NoRevisit(scenes: SceneTable, commands: seq<Command>, avail: set<SceneId>)
    decreases avail, |commands|
  {
    commands == [] ||
    (EntersAvailable(scenes, commands[0], avail)
     && (Opens(scenes, commands[0]) ==>
           NoRevisit(scenes, scenes[commands[0].scene], avail - {commands[0].scene}))
     && NoRevisit(scenes, commands[1..], avail))
  }

  predicate Opens(scenes: SceneTable, command: Command) {
    command.ActivateScene? && command.scene in scenes
  }

  predicate EntersAvailable(scenes: SceneTable, command: Command, avail: set<SceneId>) {
    Opens(scenes, command) ==> command.scene in avail
  }

  /** No scene reaches itself. */
  predicate Acyclic(scenes: SceneTable) {
    forall s <- scenes.Keys :: NoRevisit(scenes, scenes[s], scenes.Keys - {s})
  }

  lemma {:induction false} AcyclicNeverRevisits(scenes: SceneTable, commands: seq<Command>)
    requires Acyclic(scenes)
    ensures NoRevisit(scenes, commands, scenes.Keys)
    decreases |commands|
  {
    if commands != [] {
      AcyclicNeverRevisits(scenes, commands[1..]);
    }
  }

  /** The commands an expansion hands out, in order; unknown scenes expand to nothing. */
  function Leaves(scenes: SceneTable, commands: seq<Command>, avail: set<SceneId>): (leaves: seq<Command>)
    ensures forall c <- leaves :: !c.ActivateScene?
    decreases avail, |commands|
  {
    if commands == [] then []
    else if !commands[0].ActivateScene? then [commands[0]] + Leaves(scenes, commands[1..], avail)
    else if Opens(scenes, commands[0]) && commands[0].scene in avail then
      Leaves(scenes, scenes[commands[0].scene], avail - {commands[0].scene})
      + Leaves(scenes, commands[1..], avail)
    else Leaves(scenes, commands[1..], avail)
  }

  function Flatten(scenes: SceneTable, commands: seq<Command>): seq<Command> {
    Leaves(scenes, commands, scenes.Keys)
  }

  lemma {:induction false} LeavesAppend(scenes: SceneTable, a: seq<Command>, b: seq<Command>, avail: set<SceneId>)
    ensures Leaves(scenes, a + b, avail) == Leaves(scenes, a, avail) + Leaves(scenes, b, avail)
    decreases |a|
  {
    if a == [] {
      assert a + b == b;
    } else {
      assert (a + b)[1..] == a[1..] + b;
      LeavesAppend(scenes, a[1..], b, avail);
    }
  }

  /** Where no scene is revisited it does not matter which ones were entered before. */
  lemma {:induction false} LeavesSame(scenes: SceneTable, commands: seq<Command>, a: set<SceneId>, b: set<SceneId>)
    requires NoRevisit(scenes, commands, a) && NoRevisit(scenes, commands, b)
    ensures Leaves(scenes, commands, a) == Leaves(scenes, commands, b)
    decreases a, |commands|
  {
    if commands != [] {
      if Opens(scenes, commands[0]) {
        var s := commands[0].scene;
        LeavesSame(scenes, scenes[s], a - {s}, b - {s});
      }
      LeavesSame(scenes, commands[1..], a, b);
    }
  }

  /** Expansion in order: a list expands command by command, a scene to the expansion of its
      members, an unknown scene to nothing, and any other command to itself. */
  lemma ExpandsInOrder(scenes: SceneTable, a: seq<Command>, b: seq<Command>, c: Command)
    requires Acyclic(scenes)
    ensures Flatten(scenes, a + b) == Flatten(scenes, a) + Flatten(scenes, b)
    ensures Flatten(scenes, [c]) ==
      if !c.ActivateScene? then [c] else if c.scene in scenes then Flatten(scenes, scenes[c.scene]) else []
  {
    LeavesAppend(scenes, a, b, scenes.Keys);
    assert [c][1..] == [] && Leaves(scenes, [c][1..], scenes.Keys) == [];
    if Opens(scenes, c) {
      AcyclicNeverRevisits(scenes, scenes[c.scene]);
      LeavesSame(scenes, scenes[c.scene], scenes.Keys - {c.scene}, scenes.Keys);
    }
  }

  /** The recursion of `dispatch_at` on `commands` nests at most `n` scenes deep. */
  predicate Within(scenes: SceneTable, commands: seq<Command>, n: nat)
    decreases n, |commands|
  {
    commands == [] ||
    ((Opens(scenes, commands[0]) ==> n > 0 && Within(scenes, scenes[commands[0].scene], n - 1))
     && Within(scenes, commands[1..], n))
  }

  lemma {:induction false} WithinMonotone(scenes: SceneTable, commands: seq<Command>, m: nat, n: nat)
    requires m <= n && Within(scenes, commands, m)
    ensures Within(scenes, commands, n)
    decreases m, |commands|
  {
    if commands != [] {
      if Opens(scenes, commands[0]) {
        WithinMonotone(scenes, scenes[commands[0].scene], m - 1, n - 1);
      }
      WithinMonotone(scenes, commands[1..], m, n);
    }
  }

  lemma {:induction false} NoRevisitBoundsDepth(scenes: SceneTable, commands: seq<Command>, avail: set<SceneId>)
    requires NoRevisit(scenes, commands, avail)
    ensures Within(scenes, commands, |avail|)
    decreases avail, |commands|
  {
    if commands != [] {
      if Opens(scenes, commands[0]) {
        var s := commands[0].scene;
        assert |avail - {s}| == |avail| - 1;
        NoRevisitBoundsDepth(scenes, scenes[s], avail - {s});
      }
      NoRevisitBoundsDepth(scenes, commands[1..], avail);
    }
  }

  /** A scene already entered is deeper than anything nested in it, so a bounded recursion
      cannot come back to it. */
  lemma {:induction false} BoundedNeverRevisits(scenes: SceneTable, commands: seq<Command>, n: nat, avail: set<SceneId>)
    requires Within(scenes, commands, n)
    requires forall s <- scenes.Keys - avail :: !(n > 0 && Within(scenes, scenes[s], n - 1))
    ensures NoRevisit(scenes, commands, avail)
    decreases n, |commands|
  {
    if commands != [] {
      if Opens(scenes, commands[0]) {
        var s := commands[0].scene;
        var m := LeastBound(scenes, scenes[s], n - 1);
        forall t <- scenes.Keys - (avail - {s}) ensures !(m > 0 && Within(scenes, scenes[t], m - 1)) {
          if m > 0 && Within(scenes, scenes[t], m - 1) {
            WithinMonotone(scenes, scenes[t], m - 1, n - 1);
          }
        }
        BoundedNeverRevisits(scenes, scenes[s], m, avail - {s});
      }
      BoundedNeverRevisits(scenes, commands[1..], n, avail);
    }
  }

  lemma {:induction false} LeastBound(scenes: SceneTable, commands: seq<Command>, n: nat) returns (m: nat)
    requires Within(scenes, commands, n)
    ensures m <= n && Within(scenes, commands, m) && (m > 0 ==> !Within(scenes, commands, m - 1))
    decreases n
  {
    if n > 0 && Within(scenes, commands, n - 1) {
      m := LeastBound(scenes, commands, n - 1);
    } else {
      m := n;
    }
  }

  ghost predicate Terminates(scenes: SceneTable, commands: seq<Command>) {
    exists n: nat :: Within(scenes, commands, n)
  }

  /** Expansion terminates exactly when no activation chain revisits a scene. */
  lemma ExpansionTerminatesIff(scenes: SceneTable, commands: seq<Command>)
    ensures Terminates(scenes, commands) <==> NoRevisit(scenes, commands, scenes.Keys)
  {
    if Terminates(scenes, commands) {
      var n: nat :| Within(scenes, commands, n);
      BoundedNeverRevisits(scenes, commands, n, scenes.Keys);
    }
    if NoRevisit(scenes, commands, scenes.Keys) {
      NoRevisitBoundsDepth(scenes, commands, scenes.Keys);
    }
  }

  /** The smallest failing configuration: one scene that activates itself has no bound on
      its recursion, at any cascade depth limit. */
  lemma SelfActivationNeverReturns(s: SceneId, n: nat)
    ensures !Within(map[s := [ActivateScene(s)]], [ActivateScene(s)], n)
    decreases n
  {
    if n > 0 {
      SelfActivationNeverReturns(s, n - 1);
    }
  }
}
