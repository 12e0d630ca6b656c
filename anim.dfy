/** The named animations of the built-in state helpers `$anim` and
    `$animColor` (index.js:296, 364-444): a registry from animation names to
    tokens, where every start under a name replaces that name's token, and the
    tick and completion events the animation engine sends back. A tick writes
    the current value into the state through `app.debounce` only while its
    token is still the registry's token for the name. The interpolation itself
    (easing, durations, timers) is the engine's: its ticks are external events
    here, each carrying the value the engine computed. */
module Anim {
  import opened Values
  import opened App

  /** A token object: `{ from, to, running }`, and `complete` once the
      animation has completed (absent, read as false, before). Its identity is
      its index in the registry's list of tokens. */
  datatype Token = Token(from: Value, to: Value, running: bool, complete: bool)

  /** `animate` (numbers) or `animateColor` (colours). */
  datatype Kind = Numeric | Color

  /** The second argument after destructuring: `from` is `None` when the
      options object has no `from` key at all. An absent argument is the
      default `{}`: no `from` and every other entry `undefined`. */
  datatype Options = Options(from: Option<Value>, to: Value, byValue: Value, duration: Value,
                             easing: Value, change: Value, complete: Value)

  const NoOptions: Options := Options(None, Undefined, Undefined, Undefined, Undefined, Undefined, Undefined)

  /** One animation handed to the engine: the name and token its callbacks
      close over, the interpolation it asked for, and its two callbacks. */
  datatype Run = Run(name: string, token: nat, kind: Kind, start: Value, end: Value, byValue: Value,
                     duration: Value, easing: Value, change: Value, complete: Value)

  /** What a callback does outside the registry: `app.debounce(name, value)`,
      the caller's `change(value)`, the caller's `complete()`. */
  datatype Effect = Write(name: string, value: Value) | Changed(callback: Value, value: Value)
                  | Completed(callback: Value)

  /** The `animations` map (name to token identity), the token objects, the
      animations started so far and the effects their callbacks had. */
  datatype Registry = Registry(tokens: seq<Token>, current: map<string, nat>, runs: seq<Run>,
                               effects: seq<Effect>)

  /** The answer of `$anim(name)`: the name's token, or a fresh `{ running: false }`. */
  datatype Query = Found(id: nat) | Idle

  /** Every name and every started animation refers to an existing token. */
  ghost predicate ValidRegistry(reg: Registry) {
    && (forall n :: n in reg.current ==> reg.current[n] < |reg.tokens|)
    && (forall i :: 0 <= i < |reg.runs| ==> reg.runs[i].token < |reg.tokens| && reg.runs[i].name in reg.current)
  }

  const EmptyRegistry: Registry := Registry([], map[], [], [])

  /** `$anim(name)` with no other argument. */
  function QueryS(reg: Registry, name: string): Query {
    if name in reg.current then Found(reg.current[name]) else Idle
  }

  /** Whether the animation is running, as a caller of the query reads it. */
  function Running(reg: Registry, q: Query): bool
    requires q.Found? ==> q.id < |reg.tokens|
  {
    q.Found? && reg.tokens[q.id].running
  }

  /** The start value: the explicit `from`, otherwise the state at path `name`. */
  function FromValue(opts: Options, name: string, state: Props): Value {
    if opts.from.Some? then opts.from.value else GetPath(state, name)
  }

  /** `$anim(name, options, stop)` with at least two arguments, or
      `$animColor(name, options, stop)` with any number: a fresh token becomes
      the name's token; unless `stop` is truthy an animation is started, and
      `animateColor` is not given `by`. */
  function StartS(reg: Registry, name: string, kind: Kind, opts: Options, stop: Value, state: Props): Registry {
    var from := FromValue(opts, name, state);
    var id := |reg.tokens|;
    var reg1 := reg.(tokens := reg.tokens + [Token(from, opts.to, false, false)],
                     current := reg.current[name := id]);
    if Truthy(stop) then reg1
    else
      var byValue := if kind == Numeric then opts.byValue else Undefined;
      reg1.(runs := reg1.runs + [Run(name, id, kind, from, opts.to, byValue, opts.duration, opts.easing,
                                     opts.change, opts.complete)])
  }

  /** `onChange(currentValue)` of animation `r`: its token is marked running
      first; only if the token is still the name's token is the value written
      and `change` called. */
  function TickS(reg: Registry, r: nat, v: Value): Registry
    requires r < |reg.runs| && ValidRegistry(reg)
  {
    var run := reg.runs[r];
    var reg1 := reg.(tokens := reg.tokens[run.token := reg.tokens[run.token].(running := true)]);
    if reg.current[run.name] != run.token then reg1
    else
      reg1.(effects := reg1.effects + [Write(run.name, v)]
                        + (if Truthy(run.change) then [Changed(run.change, v)] else []))
  }

  /** `onComplete()` of animation `r`: its token is marked complete and not
      running and `complete` is called, superseded or not. */
  function CompleteS(reg: Registry, r: nat): Registry
    requires r < |reg.runs| && ValidRegistry(reg)
  {
    var run := reg.runs[r];
    reg.(tokens := reg.tokens[run.token := reg.tokens[run.token].(complete := true, running := false)],
         effects := reg.effects + (if Truthy(run.complete) then [Completed(run.complete)] else []))
  }

  // ---------------------------------------------------------------------------
  // What the registry promises

  /** A start keeps the registry valid, makes a fresh token with the start
      value and target the name's token, leaves every other name's token and
      every earlier token as they were, has no effect of its own, and starts
      an animation from that value exactly when `stop` is falsy. */
  lemma StartRegisters(reg: Registry, name: string, kind: Kind, opts: Options, stop: Value, state: Props)
    requires ValidRegistry(reg)
    ensures var r := StartS(reg, name, kind, opts, stop, state);
      var from := if opts.from.Some? then opts.from.value else GetPath(state, name);
      && ValidRegistry(r)
      && r.current[name] == |reg.tokens| && |r.tokens| == |reg.tokens| + 1
      && r.tokens[|reg.tokens|] == Token(from, opts.to, false, false)
      && r.tokens[..|reg.tokens|] == reg.tokens
      && (forall n :: n != name ==>
            (n in r.current <==> n in reg.current) && (n in reg.current ==> r.current[n] == reg.current[n]))
      && r.effects == reg.effects
      && (Truthy(stop) ==> r.runs == reg.runs)
      && (!Truthy(stop) ==>
            && |r.runs| == |reg.runs| + 1 && r.runs[..|reg.runs|] == reg.runs
            && r.runs[|reg.runs|].name == name && r.runs[|reg.runs|].token == |reg.tokens|
            && r.runs[|reg.runs|].start == from && r.runs[|reg.runs|].end == opts.to
            && r.runs[|reg.runs|].kind == kind
            && (kind == Color ==> r.runs[|reg.runs|].byValue == Undefined))
  {
    var r := StartS(reg, name, kind, opts, stop, state);
    forall i | 0 <= i < |r.runs| ensures r.runs[i].token < |r.tokens| && r.runs[i].name in r.current {
      if i < |reg.runs| {
        assert r.runs[i] == reg.runs[i];
      }
    }
  }

  /** After a start under a name, every animation started before under that
      name has lost its token: none of them is current any more. */
  lemma StartSupersedes(reg: Registry, name: string, kind: Kind, opts: Options, stop: Value, state: Props)
    requires ValidRegistry(reg)
    ensures var r := StartS(reg, name, kind, opts, stop, state);
      forall i :: 0 <= i < |reg.runs| && reg.runs[i].name == name ==> r.current[name] != r.runs[i].token
  {
    var r := StartS(reg, name, kind, opts, stop, state);
    forall i | 0 <= i < |reg.runs| && reg.runs[i].name == name
      ensures r.current[name] != r.runs[i].token
    {
      assert r.runs[i] == reg.runs[i];
    }
  }

  /** A tick keeps the registry valid and always marks its own token running,
      even a superseded one; it writes the value under the animation's name
      (and calls `change` when there is one) exactly when its token is still
      the name's token, and otherwise has no effect at all. */
  lemma TickWritesOnlyWhenCurrent(reg: Registry, r: nat, v: Value)
    requires r < |reg.runs| && ValidRegistry(reg)
    ensures var run := reg.runs[r];
      var t := TickS(reg, r, v);
      && ValidRegistry(t)
      && t.tokens[run.token].running
      && t.tokens[run.token].complete == reg.tokens[run.token].complete
      && (forall j :: 0 <= j < |reg.tokens| && j != run.token ==> t.tokens[j] == reg.tokens[j])
      && t.current == reg.current && t.runs == reg.runs
      && (reg.current[run.name] == run.token ==>
            |t.effects| > |reg.effects| && t.effects[|reg.effects|] == Write(run.name, v) &&
            t.effects == reg.effects + [Write(run.name, v)]
                           + (if Truthy(run.change) then [Changed(run.change, v)] else []))
      && (reg.current[run.name] != run.token ==> t.effects == reg.effects)
  {
  }

  /** A completion keeps the registry valid, leaves its token complete and
      not running, and calls `complete` (if given) even for a superseded
      animation; it writes nothing into the state. */
  lemma CompleteMarksToken(reg: Registry, r: nat)
    requires r < |reg.runs| && ValidRegistry(reg)
    ensures var run := reg.runs[r];
      var c := CompleteS(reg, r);
      && ValidRegistry(c)
      && c.tokens[run.token].complete && !c.tokens[run.token].running
      && c.tokens[run.token].from == reg.tokens[run.token].from
      && c.tokens[run.token].to == reg.tokens[run.token].to
      && c.current == reg.current && c.runs == reg.runs
      && c.effects == reg.effects + (if Truthy(run.complete) then [Completed(run.complete)] else [])
      && (forall e :: e in c.effects && e !in reg.effects ==> e.Completed?)
  {
  }

  /** The query finds the name's token when there is one, otherwise answers
      idle, which reads as not running; it changes nothing. */
  lemma QueryFindsToken(reg: Registry, name: string)
    requires ValidRegistry(reg)
    ensures QueryS(reg, name).Found? <==> name in reg.current
    ensures QueryS(reg, name).Found? ==> QueryS(reg, name).id == reg.current[name] < |reg.tokens|
    ensures QueryS(reg, name).Idle? ==> !Running(reg, QueryS(reg, name))
  {
  }

  /** Starting an animation under a name and then another one under the same
      name: the first one's ticks write nothing and call nothing, the second
      one's write. A `stop` start in between silences the first one in the
      same way, without starting anything. */
  lemma RestartSilencesOldTicks(reg: Registry, name: string, k1: Kind, o1: Options, k2: Kind, o2: Options,
                                stop2: Value, state: Props, v: Value)
    requires ValidRegistry(reg)
    ensures var r1 := StartS(reg, name, k1, o1, Undefined, state);
      var r2 := StartS(r1, name, k2, o2, stop2, state);
      var first := |reg.runs|;
      && first < |r2.runs|
      && TickS(r2, first, v).effects == r2.effects
      && (Truthy(stop2) ==> |r2.runs| == first + 1)
      && (!Truthy(stop2) ==>
            && first + 1 < |r2.runs|
            && TickS(r2, first + 1, v).effects[|r2.effects|] == Write(name, v))
  {
    var r1 := StartS(reg, name, k1, o1, Undefined, state);
    StartRegisters(reg, name, k1, o1, Undefined, state);
    var r2 := StartS(r1, name, k2, o2, stop2, state);
    StartRegisters(r1, name, k2, o2, stop2, state);
    StartSupersedes(r1, name, k2, o2, stop2, state);
    var first := |reg.runs|;
    assert r2.runs[first] == r1.runs[first];
    TickWritesOnlyWhenCurrent(r2, first, v);
    if !Truthy(stop2) {
      TickWritesOnlyWhenCurrent(r2, first + 1, v);
    }
  }

  /** `$animColor(name)` has no query form: called with only a name it
      registers a fresh token and starts a colour animation from the state's
      value at `name` towards `undefined`. */
  lemma ColorNameOnlyStarts(reg: Registry, name: string, state: Props)
    requires ValidRegistry(reg)
    ensures var r := StartS(reg, name, Color, NoOptions, Undefined, state);
      && r.current[name] == |reg.tokens|
      && |r.runs| == |reg.runs| + 1
      && r.runs[|reg.runs|] == Run(name, |reg.tokens|, Color, GetPath(state, name), Undefined, Undefined,
                                   Undefined, Undefined, Undefined, Undefined)
  {
  }

  /** Carrying out a write effect through `app.debounce` and letting the
      delay elapse leaves the state reading back the animated value at the
      animation's name (for a non-empty name: the empty string is falsy and
      writes nothing). */
  lemma WriteEffectReadsBack(st: Store, name: string, v: Value)
    requires name != ""
    ensures GetPath(FlushS(DebounceS(st, Str(name), v)).state, name) == v
  {
    GetAfterSet(st.state, name, v);
  }

  /** `$anim("x.y", { to: 100, duration: 0 })` with no `from`: the start value
      is read from the state at "x.y"; when the engine ticks with 100 and
      completes, the token is complete, 100 is the one value written, and once
      the debounced write lands the state reads 100 at "x.y". */
  lemma ZeroDurationScenario(reg: Registry, state: Props, st: Store)
    requires ValidRegistry(reg)
    ensures var opts := Options(None, Num(100), Undefined, Num(0), Undefined, Undefined, Undefined);
      var r1 := StartS(reg, "x.y", Numeric, opts, Undefined, state);
      var run := |reg.runs|;
      && run < |r1.runs| && r1.runs[run].start == GetPath(state, "x.y")
      && ValidRegistry(r1)
      && var r3 := CompleteS(TickS(r1, run, Num(100)), run);
         && r3.tokens[|reg.tokens|].complete && !r3.tokens[|reg.tokens|].running
         && r3.effects == reg.effects + [Write("x.y", Num(100))]
         && GetPath(FlushS(DebounceS(st, Str("x.y"), Num(100))).state, "x.y") == Num(100)
  {
    var opts := Options(None, Num(100), Undefined, Num(0), Undefined, Undefined, Undefined);
    var r1 := StartS(reg, "x.y", Numeric, opts, Undefined, state);
    var run := |reg.runs|;
    StartRegisters(reg, "x.y", Numeric, opts, Undefined, state);
    TickWritesOnlyWhenCurrent(r1, run, Num(100));
    var r2 := TickS(r1, run, Num(100));
    CompleteMarksToken(r2, run);
    WriteEffectReadsBack(st, "x.y", Num(100));
  }

  // ---------------------------------------------------------------------------
  // The registry as an object

  class Animations {
    var tokens: seq<Token>
    var current: map<string, nat>
    var runs: seq<Run>
    var effects: seq<Effect>

    function Snapshot(): Registry
      reads this
    {
      Registry(tokens, current, runs, effects)
    }

    ghost predicate Valid()
      reads this
    {
      ValidRegistry(Snapshot())
    }

    /** `const animations = {}` */
    constructor ()
      ensures Snapshot() == EmptyRegistry && Valid()
    {
      tokens, current, runs, effects := [], map[], [], [];
    }

    /** `$anim(name)` */
    method Query(name: string) returns (q: Query)
      requires Valid()
      ensures q == QueryS(Snapshot(), name)
      ensures q.Found? ==> name in current && q.id == current[name] < |tokens|
      ensures q.Idle? ==> name !in current
    {
      if name in current {
        q := Found(current[name]);
      } else {
        q := Idle;
      }
    }

    /** `$anim(name, options, stop)` or `$animColor(name, options, stop)`, with
      `state` the snapshot `app()` returns at the time of the call. */
    method Start(name: string, kind: Kind, opts: Options, stop: Value, state: Props)
      requires Valid()
      modifies this
      ensures Valid()
      ensures Snapshot() == StartS(old(Snapshot()), name, kind, opts, stop, state)
    {
      var from := if opts.from.Some? then opts.from.value else GetPath(state, name);
      var id := |tokens|;
      StartRegisters(Snapshot(), name, kind, opts, stop, state);
      tokens := tokens + [Token(from, opts.to, false, false)];
      current := current[name := id];
      if Truthy(stop) {
        return;
      }
      var byValue := if kind == Numeric then opts.byValue else Undefined;
      runs := runs + [Run(name, id, kind, from, opts.to, byValue, opts.duration, opts.easing, opts.change, opts.complete)];
    }

    /** The engine calls `onChange(v)` of animation `r`. */
    method Tick(r: nat, v: Value)
      requires Valid() && r < |runs|
      modifies this
      ensures Valid()
      ensures Snapshot() == TickS(old(Snapshot()), r, v)
    {
      TickWritesOnlyWhenCurrent(Snapshot(), r, v);
      var run := runs[r];
      tokens := tokens[run.token := tokens[run.token].(running := true)];
      if current[run.name] != run.token {
        return;
      }
      effects := effects + [Write(run.name, v)];
      if Truthy(run.change) {
        effects := effects + [Changed(run.change, v)];
      }
    }

    /** The engine calls `onComplete()` of animation `r`. */
    method Complete(r: nat)
      requires Valid() && r < |runs|
      modifies this
      ensures Valid()
      ensures Snapshot() == CompleteS(old(Snapshot()), r)
    {
      CompleteMarksToken(Snapshot(), r);
      var run := runs[r];
      tokens := tokens[run.token := tokens[run.token].(complete := true, running := false)];
      if Truthy(run.complete) {
        effects := effects + [Completed(run.complete)];
      }
    }
  }
}
