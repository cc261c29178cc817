/**
 Hot reload of the configuration (internal/config/reload.go): apply the reloaders
 whose section changed, in order; on a failure roll the applied ones back in
 reverse. The subsystems' state is one shared world, so order matters.
 */
module ConfigReload {
  import opened Wrappers
  import opened ConfigDiff

  /**
   One subsystem's reloader over a world of type W. `apply` and `rollback` may fail or
   misbehave depending on the last argument, a stand-in for everything outside the
   model. `agrees` says that the subsystem reflects a config.
   */
  datatype Reloader<!W> = Reloader(
    canReload: ChangeSet -> bool,
    apply: (W, Config, nat) -> (W, bool),
    rollback: (W, Config, nat) -> W,
    agrees: (W, Config) -> bool)

  // ---- Specification ----

  /** The world and verdict of running reloaders `i` onwards, undoing them from the inside out. */
  function Outcome<W>(rs: seq<Reloader<W>>, i: nat, cs: ChangeSet, w: W, cur: Config, next: Config, env: nat -> nat): (W, bool)
    requires i <= |rs|
    decreases |rs| - i
  {
    if i == |rs| then (w, true)
    else if !rs[i].canReload(cs) then Outcome(rs, i + 1, cs, w, cur, next, env)
    else
      var applied := rs[i].apply(w, next, env(i));
      if !applied.1 then applied
      else
        var later := Outcome(rs, i + 1, cs, applied.0, cur, next, env);
        if later.1 then later else (rs[i].rollback(later.0, cur, env(i)), false)
  }

  datatype ReloadState<W> = ReloadState(current: Config, world: W)

  /** One call of Apply on a config that parsed (None: too large or malformed). */
  function ApplyStep<W>(rs: seq<Reloader<W>>, s: ReloadState<W>, parsed: Option<Config>, rest: Config -> bool,
                        env: nat -> nat): (ReloadState<W>, bool)
  {
    if parsed.None? || !Validate(parsed.value, rest) || FrozenOf(s.current) != FrozenOf(parsed.value) then (s, false)
    else
      var next := parsed.value;
      var out := Outcome(rs, 0, ChangesOf(s.current, next), s.world, s.current, next, env);
      if out.1 then (ReloadState(next, out.0), true) else (s.(world := out.0), false)
  }

  // ---- The reloader contract and what it buys ----

  /** A failed Apply leaves the world alone; a successful one brings its subsystem to the new config. */
  ghost predicate ApplyContract<W(!new)>(r: Reloader<W>) {
    forall w, c, e :: if r.apply(w, c, e).1 then r.agrees(r.apply(w, c, e).0, c) else r.apply(w, c, e).0 == w
  }

  /** Rollback undoes an Apply that started in agreement with the old config. */
  ghost predicate RollbackContract<W(!new)>(r: Reloader<W>) {
    forall w, cur, next, e, e' :: r.agrees(w, cur) && r.apply(w, next, e).1 ==>
      r.rollback(r.apply(w, next, e).0, cur, e') == w
  }

  /** An Apply does not disturb what another subsystem agrees with. */
  ghost predicate Independent<W(!new)>(r: Reloader<W>, other: Reloader<W>) {
    forall w, c, d, e :: other.agrees(w, c) ==> other.agrees(r.apply(w, d, e).0, c)
  }

  /** A reloader that is skipped already agrees with the new config. */
  ghost predicate SkipContract<W(!new)>(r: Reloader<W>) {
    forall w, cur, next :: r.agrees(w, cur) && !r.canReload(ChangesOf(cur, next)) ==> r.agrees(w, next)
  }

  ghost predicate Contract<W(!new)>(rs: seq<Reloader<W>>) {
    && (forall i :: 0 <= i < |rs| ==> ApplyContract(rs[i]) && RollbackContract(rs[i]) && SkipContract(rs[i]))
    && (forall i, j :: 0 <= i < |rs| && 0 <= j < |rs| && i != j ==> Independent(rs[i], rs[j]))
  }

  predicate AgreeFrom<W>(rs: seq<Reloader<W>>, i: nat, w: W, c: Config) {
    forall j :: i <= j < |rs| ==> rs[j].agrees(w, c)
  }

  predicate AgreeUpTo<W>(rs: seq<Reloader<W>>, i: nat, w: W, c: Config) {
    forall j :: 0 <= j < i && j < |rs| ==> rs[j].agrees(w, c)
  }

  lemma {:induction false} FailureRestores<W(!new)>(rs: seq<Reloader<W>>, i: nat, cs: ChangeSet, w: W, cur: Config,
                                                    next: Config, env: nat -> nat)
    requires i <= |rs| && Contract(rs) && AgreeFrom(rs, i, w, cur)
    requires !Outcome(rs, i, cs, w, cur, next, env).1
    ensures Outcome(rs, i, cs, w, cur, next, env).0 == w
    decreases |rs| - i
  {
    if !rs[i].canReload(cs) {
      FailureRestores(rs, i + 1, cs, w, cur, next, env);
    } else {
      assert ApplyContract(rs[i]) && RollbackContract(rs[i]);
      var applied := rs[i].apply(w, next, env(i));
      if applied.1 {
        forall j | i + 1 <= j < |rs| ensures rs[j].agrees(applied.0, cur) {
          assert Independent(rs[i], rs[j]);
        }
        FailureRestores(rs, i + 1, cs, applied.0, cur, next, env);
      }
    }
  }

  lemma {:induction false} SuccessAgrees<W(!new)>(rs: seq<Reloader<W>>, i: nat, w: W, cur: Config, next: Config,
                                                  env: nat -> nat)
    requires i <= |rs| && Contract(rs) && AgreeFrom(rs, i, w, cur) && AgreeUpTo(rs, i, w, next)
    requires Outcome(rs, i, ChangesOf(cur, next), w, cur, next, env).1
    ensures AgreeUpTo(rs, |rs|, Outcome(rs, i, ChangesOf(cur, next), w, cur, next, env).0, next)
    decreases |rs| - i
  {
    if i < |rs| {
      if !rs[i].canReload(ChangesOf(cur, next)) {
        assert SkipContract(rs[i]);
        SuccessAgrees(rs, i + 1, w, cur, next, env);
      } else {
        assert ApplyContract(rs[i]);
        var applied := rs[i].apply(w, next, env(i));
        forall j | 0 <= j < |rs| && j != i
          ensures rs[j].agrees(w, cur) ==> rs[j].agrees(applied.0, cur)
          ensures rs[j].agrees(w, next) ==> rs[j].agrees(applied.0, next)
        {
          assert Independent(rs[i], rs[j]);
        }
        SuccessAgrees(rs, i + 1, applied.0, cur, next, env);
      }
    }
  }

  /**
   All or nothing: after any Apply either the new config is current and every subsystem
   agrees with it, or the current config and the whole world are exactly as before.
   */
  lemma AllOrNothing<W(!new)>(rs: seq<Reloader<W>>, s: ReloadState<W>, parsed: Option<Config>, rest: Config -> bool,
                              env: nat -> nat)
    requires Contract(rs) && AgreeUpTo(rs, |rs|, s.world, s.current)
    ensures var (t, ok) := ApplyStep(rs, s, parsed, rest, env);
            if ok then parsed == Some(t.current) && AgreeUpTo(rs, |rs|, t.world, t.current) else t == s
  {
    if parsed.Some? && Validate(parsed.value, rest) && FrozenOf(s.current) == FrozenOf(parsed.value) {
      var next := parsed.value;
      if Outcome(rs, 0, ChangesOf(s.current, next), s.world, s.current, next, env).1 {
        SuccessAgrees(rs, 0, s.world, s.current, next, env);
      } else {
        FailureRestores(rs, 0, ChangesOf(s.current, next), s.world, s.current, next, env);
      }
    }
  }

  // ---- Whole runs ----

  datatype Attempt = Attempt(parsed: Option<Config>, env: nat -> nat)

  function RunApplies<W>(rs: seq<Reloader<W>>, s: ReloadState<W>, attempts: seq<Attempt>, rest: Config -> bool): ReloadState<W>
    decreases |attempts|
  {
    if attempts == [] then s
    else
      var a := attempts[|attempts| - 1];
      ApplyStep(rs, RunApplies(rs, s, attempts[..|attempts| - 1], rest), a.parsed, rest, a.env).0
  }

  /** No run of Apply ever changes a frozen field or adopts an invalid config, whatever the reloaders do. */
  lemma {:induction false} FrozenForever<W>(rs: seq<Reloader<W>>, s: ReloadState<W>, attempts: seq<Attempt>, rest: Config -> bool)
    ensures var t := RunApplies(rs, s, attempts, rest);
            SameFrozen(t.current, s.current) && (t.current == s.current || Validate(t.current, rest))
    decreases |attempts|
  {
    if attempts != [] {
      FrozenForever(rs, s, attempts[..|attempts| - 1], rest);
    }
  }

  /** Under the contract every run ends with all subsystems agreeing with the current config. */
  lemma {:induction false} RunsStayInAgreement<W(!new)>(rs: seq<Reloader<W>>, s: ReloadState<W>, attempts: seq<Attempt>,
                                                        rest: Config -> bool)
    requires Contract(rs) && AgreeUpTo(rs, |rs|, s.world, s.current)
    ensures var t := RunApplies(rs, s, attempts, rest); AgreeUpTo(rs, |rs|, t.world, t.current)
    decreases |attempts|
  {
    if attempts != [] {
      var n := |attempts| - 1;
      RunsStayInAgreement(rs, s, attempts[..n], rest);
      AllOrNothing(rs, RunApplies(rs, s, attempts[..n], rest), attempts[n].parsed, rest, attempts[n].env);
    }
  }

  /** A due reloader whose Apply cannot succeed blocks the whole reload, wherever it stands. */
  lemma {:induction false} RefusalBlocks<W(!new)>(rs: seq<Reloader<W>>, i: nat, k: nat, cs: ChangeSet, w: W, cur: Config,
                                                  next: Config, env: nat -> nat)
    requires i <= k < |rs| && rs[k].canReload(cs) && forall v, e :: !rs[k].apply(v, next, e).1
    ensures !Outcome(rs, i, cs, w, cur, next, env).1
    decreases k - i
  {
    if i < k {
      if rs[i].canReload(cs) {
        RefusalBlocks(rs, i + 1, k, cs, rs[i].apply(w, next, env(i)).0, cur, next, env);
      } else {
        RefusalBlocks(rs, i + 1, k, cs, w, cur, next, env);
      }
    }
  }

  // ---- When a reload succeeds ----

  /** The world reloader `i` is given, when all due ones before it were applied. */
  function WorldAt<W>(rs: seq<Reloader<W>>, i: nat, cs: ChangeSet, w: W, next: Config, env: nat -> nat): W
    requires i <= |rs|
  {
    if i == 0 then w
    else
      var before := WorldAt(rs, i - 1, cs, w, next, env);
      if rs[i - 1].canReload(cs) then rs[i - 1].apply(before, next, env(i - 1)).0 else before
  }

  predicate AppliesAt<W>(rs: seq<Reloader<W>>, i: nat, cs: ChangeSet, w: W, next: Config, env: nat -> nat)
    requires i < |rs|
  {
    rs[i].canReload(cs) ==> rs[i].apply(WorldAt(rs, i, cs, w, next, env), next, env(i)).1
  }

  lemma {:induction false} OutcomeSucceeds<W>(rs: seq<Reloader<W>>, i: nat, cs: ChangeSet, w: W, cur: Config, next: Config,
                                              env: nat -> nat)
    requires i <= |rs|
    ensures var out := Outcome(rs, i, cs, WorldAt(rs, i, cs, w, next, env), cur, next, env);
            && (out.1 <==> forall j :: i <= j < |rs| ==> AppliesAt(rs, j, cs, w, next, env))
            && (out.1 ==> out.0 == WorldAt(rs, |rs|, cs, w, next, env))
    decreases |rs| - i
  {
    if i < |rs| {
      OutcomeSucceeds(rs, i + 1, cs, w, cur, next, env);
      if !AppliesAt(rs, i, cs, w, next, env) {
        assert !Outcome(rs, i, cs, WorldAt(rs, i, cs, w, next, env), cur, next, env).1;
      }
    }
  }

  /**
   A reload succeeds exactly when the config parses and validates, no frozen field differs,
   and every reloader whose section changed accepts it in the world it is given; the world
   is then the one they leave.
   */
  lemma ApplySucceedsExactly<W>(rs: seq<Reloader<W>>, s: ReloadState<W>, parsed: Option<Config>, rest: Config -> bool,
                                env: nat -> nat)
    ensures var (t, ok) := ApplyStep(rs, s, parsed, rest, env);
            && (ok <==>
                && parsed.Some? && Validate(parsed.value, rest) && SameFrozen(s.current, parsed.value)
                && forall i :: 0 <= i < |rs| ==>
                     AppliesAt(rs, i, ChangesOf(s.current, parsed.value), s.world, parsed.value, env))
            && (ok ==> t == ReloadState(parsed.value,
                                        WorldAt(rs, |rs|, ChangesOf(s.current, parsed.value), s.world, parsed.value, env)))
  {
    if parsed.Some? {
      OutcomeSucceeds(rs, 0, ChangesOf(s.current, parsed.value), s.world, s.current, parsed.value, env);
    }
  }

  // ---- The loop ----

  /** Rolling back a list of applied reloaders, last first. */
  function Unwind<W>(rs: seq<Reloader<W>>, applied: seq<nat>, w: W, cur: Config, env: nat -> nat): W
    requires forall k :: 0 <= k < |applied| ==> applied[k] < |rs|
    decreases |applied|
  {
    if applied == [] then w
    else
      var n := |applied| - 1;
      Unwind(rs, applied[..n], rs[applied[n]].rollback(w, cur, env(applied[n])), cur, env)
  }

  class ConfigReloader<W> {
    var current: Config
    /** The state of all subsystems. */
    var world: W
    const reloaders: seq<Reloader<W>>

    constructor (current: Config, world: W, reloaders: seq<Reloader<W>>)
      ensures this.current == current && this.world == world && this.reloaders == reloaders
    {
      this.current, this.world, this.reloaders := current, world, reloaders;
    }

    method Apply(parsed: Option<Config>, rest: Config -> bool, env: nat -> nat) returns (ok: bool)
      modifies this
      ensures (ReloadState(current, world), ok) ==
              ApplyStep(reloaders, ReloadState(old(current), old(world)), parsed, rest, env)
    {
      hide FrozenOf, SameFrozen, ChangesOf, Validate;
      if parsed.None? {
        return false;
      }
      var next := parsed.value;
      var diff := Diff(current, next, rest);
      if diff.Err? {
        return false;
      }
      var cs := diff.value.0;
      if diff.value.1 != [] {
        return false;
      }
      ghost var goal := Outcome(reloaders, 0, cs, world, current, next, env);
      var applied: seq<nat> := [];
      for i := 0 to |reloaders|
        invariant current == old(current)
        invariant forall k :: 0 <= k < |applied| ==> applied[k] < |reloaders|
        invariant var later := Outcome(reloaders, i, cs, world, current, next, env);
                  goal == if later.1 then later else (Unwind(reloaders, applied, later.0, current, env), false)
      {
        if !reloaders[i].canReload(cs) {
          continue;
        }
        var attempt := reloaders[i].apply(world, next, env(i));
        world := attempt.0;
        if !attempt.1 {
          RollbackAll(applied, env);
          return false;
        }
        assert (applied + [i])[..|applied|] == applied;
        applied := applied + [i];
      }
      current := next;
      return true;
    }

    /** The reverse loop over the applied reloaders. */
    method RollbackAll(applied: seq<nat>, env: nat -> nat)
      requires forall k :: 0 <= k < |applied| ==> applied[k] < |reloaders|
      modifies this`world
      ensures world == Unwind(reloaders, applied, old(world), current, env)
    {
      var i := |applied|;
      assert applied[..i] == applied;
      while i > 0
        invariant 0 <= i <= |applied|
        invariant Unwind(reloaders, applied[..i], world, current, env) ==
                  Unwind(reloaders, applied, old(world), current, env)
      {
        i := i - 1;
        assert applied[..i + 1][..i] == applied[..i];
        world := reloaders[applied[i]].rollback(world, current, env(applied[i]));
      }
    }
  }
}
