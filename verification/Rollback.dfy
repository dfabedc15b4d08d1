/** The undo stack of `src/rollback.rs`.

An action is a value of type `A`; running it is a function of the action and the
world it acts on, which answers whether the action succeeded.
*/
module Rollback {

  datatype Unwinding<A, W> = Unwinding(world: W, failed: seq<A>)

  /** Running every action, last registered first, whether or not others fail. */
  function Unwound<A, W>(actions: seq<A>, world: W, run: (A, W) -> (W, bool)): Unwinding<A, W> {
    if actions == [] then Unwinding(world, [])
    else
      var a := actions[|actions| - 1];
      var (world', ok) := run(a, world);
      var rest := Unwound(actions[..|actions| - 1], world', run);
      Unwinding(rest.world, (if ok then [] else [a]) + rest.failed)
  }

  function Reversed<A>(s: seq<A>): seq<A> {
    if s == [] then [] else [s[|s| - 1]] + Reversed(s[..|s| - 1])
  }

  /** The world with a log of the actions run in it. */
  function Logging<A, W>(run: (A, W) -> (W, bool)): ((A, (W, seq<A>)) -> ((W, seq<A>), bool)) {
    (a, w: (W, seq<A>)) => ((run(a, w.0).0, w.1 + [a]), run(a, w.0).1)
  }

  /** Every action runs exactly once, in reverse order, whatever fails. */
  lemma {:induction false} EveryActionRunsOnceInReverse<A, W>(
    actions: seq<A>, world: W, log: seq<A>, run: (A, W) -> (W, bool))
    ensures Unwound(actions, (world, log), Logging(run)).world ==
            (Unwound(actions, world, run).world, log + Reversed(actions))
    ensures Unwound(actions, (world, log), Logging(run)).failed == Unwound(actions, world, run).failed
  {
    if actions != [] {
      var n := |actions| - 1;
      EveryActionRunsOnceInReverse(actions[..n], run(actions[n], world).0, log + [actions[n]], run);
      assert log + [actions[n]] + Reversed(actions[..n]) == log + Reversed(actions);
    } else {
      assert log + Reversed(actions) == log;
    }
  }

  /** What was registered later is undone before anything registered earlier. */
  lemma {:induction false} LaterIsUndoneFirst<A, W>(
    early: seq<A>, late: seq<A>, world: W, run: (A, W) -> (W, bool))
    ensures
      var first := Unwound(late, world, run);
      var second := Unwound(early, first.world, run);
      Unwound(early + late, world, run) == Unwinding(second.world, first.failed + second.failed)
  {
    if late == [] {
      assert early + late == early;
    } else {
      var n := |late| - 1;
      var a := late[n];
      LaterIsUndoneFirst(early, late[..n], run(a, world).0, run);
      assert (early + late)[..|early + late| - 1] == early + late[..n];
      var first := Unwound(late[..n], run(a, world).0, run);
      var second := Unwound(early, first.world, run);
      var head := if run(a, world).1 then [] else [a];
      assert head + (first.failed + second.failed) == head + first.failed + second.failed;
    }
  }

  lemma UnwoundEmpty<A, W>(world: W, run: (A, W) -> (W, bool))
    ensures Unwound([], world, run) == Unwinding(world, [])
  {
  }

  /** One action off the top, after the failures so far. */
  lemma UnwoundOne<A, W>(actions: seq<A>, world: W, run: (A, W) -> (W, bool), failed: seq<A>)
    requires actions != []
    ensures
      var n := |actions| - 1;
      var (next, ok) := run(actions[n], world);
      var all, rest := Unwound(actions, world, run), Unwound(actions[..n], next, run);
      && all.world == rest.world
      && failed + all.failed == (if ok then failed else failed + [actions[n]]) + rest.failed
  {
    var n := |actions| - 1;
    var (next, ok) := run(actions[n], world);
    var rest := Unwound(actions[..n], next, run);
    var head := if ok then [] else [actions[n]];
    assert Unwound(actions, world, run).failed == head + rest.failed;
    hide Unwound;
    Regroup(failed, head, rest.failed);
    assert failed + [] == failed;
  }

  lemma Regroup<A>(x: seq<A>, y: seq<A>, z: seq<A>)
    ensures x + (y + z) == (x + y) + z
  {
  }

  class Rollback<A(==)> {
    var actions: seq<A>
    var committed: bool

    constructor ()
      ensures actions == [] && !committed
    {
      actions := [];
      committed := false;
    }

    method Push(a: A)
      modifies this`actions
      ensures actions == old(actions) + [a]
    {
      actions := actions + [a];
    }

    method Commit()
      modifies this
      ensures committed && actions == []
    {
      committed := true;
      actions := [];
    }

    method Unwind<W>(world: W, run: (A, W) -> (W, bool)) returns (world': W, failed: seq<A>)
      modifies this`actions
      ensures actions == []
      ensures Unwinding(world', failed) == Unwound(old(actions), world, run)
    {
      world', failed := world, [];
      hide Unwound;
      UnwoundEmpty(world, run);
      while actions != []
        invariant
          var rest := Unwound(actions, world', run);
          Unwound(old(actions), world, run) == Unwinding(rest.world, failed + rest.failed)
        decreases |actions|
      {
        var a := actions[|actions| - 1];
        UnwoundOne(actions, world', run, failed);
        actions := actions[..|actions| - 1];
        var (next, ok) := run(a, world');
        world' := next;
        if !ok {
          failed := failed + [a];
        }
      }
      UnwoundEmpty(world', run);
    }

    /** Going out of scope: only what was not committed is undone. */
    method Drop<W>(world: W, run: (A, W) -> (W, bool)) returns (world': W)
      modifies this`actions
      ensures world' == if committed then world else Unwound(old(actions), world, run).world
      ensures !committed ==> actions == []
    {
      world' := world;
      if !committed && actions != [] {
        var failed;
        world', failed := Unwind(world, run);
      }
    }
  }
}
