/** Tool-loop detection: a guard that warns and then aborts on repeated identical calls,
    and the normalisation that decides which calls are identical. */
module ToolLoop {
  import opened Text

  // ----- Tool inputs and their normal form -----

  /** A decoded JSON-like tool input. `Other` stands for values of any other Go type, which
      the source renders with "%v". */
  datatype Value =
    | Nil
    | Str(text: string)
    | Bool(b: bool)
    | Float(f: real)
    | Number(literal: string)
    | List(items: seq<Value>)
    | Object(fields: map<string, Value>)
    | Other(rendered: string)

  /** normalizeToolLoopValue: drop volatile keys and nil entries, render numbers. */
  function Normalize(v: Value, volatile: string -> bool): Value
    decreases v
  {
    match v
    case Nil => Nil
    case Str(_) => v
    case Bool(_) => v
    case Float(_) => v
    case Number(literal) => Str(literal)
    case List(items) => List(seq(|items|, i requires 0 <= i < |items| => Normalize(items[i], volatile)))
    case Object(fields) =>
      Object(map k | k in fields && !volatile(k) && Normalize(fields[k], volatile) != Nil
               :: Normalize(fields[k], volatile))
    case Other(rendered) => Str(rendered)
  }

  /** The entries of an object that take part in the comparison of calls. */
  predicate Matters(fields: map<string, Value>, k: string, volatile: string -> bool) {
    k in fields && !volatile(k) && fields[k] != Nil
  }

  /** Two inputs are the same call when they agree up to volatile keys, nil entries of
      objects, and the rendering of scalars, at every depth. No normal form is involved. */
  ghost predicate SameInput(a: Value, b: Value, volatile: string -> bool)
    decreases a
  {
    match a
    case Nil => b == Nil
    case Bool(_) => a == b
    case Float(_) => a == b
    case List(items) =>
      && b.List?
      && |items| == |b.items|
      && forall i :: 0 <= i < |items| ==> SameInput(items[i], b.items[i], volatile)
    case Object(fields) =>
      && b.Object?
      && (forall k :: Matters(fields, k, volatile) <==> Matters(b.fields, k, volatile))
      && (forall k :: k in fields && Matters(fields, k, volatile) ==>
            SameInput(fields[k], b.fields[k], volatile))
    case _ => Rendered?(b) && Rendering(a) == Rendering(b)
  }

  predicate Rendered?(v: Value) {
    v.Str? || v.Number? || v.Other?
  }

  function Rendering(v: Value): string
    requires Rendered?(v)
  {
    match v case Str(t) => t case Number(t) => t case Other(t) => t
  }

  lemma OnlyNilVanishes(v: Value, volatile: string -> bool)
    ensures Normalize(v, volatile) == Nil <==> v == Nil
  {
  }

  lemma NormalFields(fields: map<string, Value>, volatile: string -> bool, k: string)
    ensures var n := Normalize(Object(fields), volatile);
            && (k in n.fields <==> Matters(fields, k, volatile))
            && (k in n.fields ==> n.fields[k] == Normalize(fields[k], volatile))
  {
    if k in fields {
      OnlyNilVanishes(fields[k], volatile);
    }
  }

  /** Two inputs get the same normal form exactly when they are the same call: nothing that
      matters is lost, and nothing that does not matter survives. */
  lemma {:induction false} NormalFormDecides(a: Value, b: Value, volatile: string -> bool)
    ensures Normalize(a, volatile) == Normalize(b, volatile) <==> SameInput(a, b, volatile)
    decreases a
  {
    if a.List? && b.List? {
      ListsDecide(a.items, b.items, volatile);
    } else if a.Object? && b.Object? {
      forall k | k in a.fields && k in b.fields
        ensures Normalize(a.fields[k], volatile) == Normalize(b.fields[k], volatile)
           <==> SameInput(a.fields[k], b.fields[k], volatile)
      {
        NormalFormDecides(a.fields[k], b.fields[k], volatile);
      }
      ObjectsDecide(a.fields, b.fields, volatile);
    }
  }

  lemma {:induction false} ListsDecide(a: seq<Value>, b: seq<Value>, volatile: string -> bool)
    ensures Normalize(List(a), volatile) == Normalize(List(b), volatile) <==> SameInput(List(a), List(b), volatile)
    decreases a
  {
    var na, nb := Normalize(List(a), volatile).items, Normalize(List(b), volatile).items;
    if |a| == |b| {
      forall i | 0 <= i < |a|
        ensures na[i] == nb[i] <==> SameInput(a[i], b[i], volatile)
      {
        NormalFormDecides(a[i], b[i], volatile);
      }
      if SameInput(List(a), List(b), volatile) {
        assert na == nb;
      }
    } else {
      assert |na| != |nb|;
    }
  }

  lemma ObjectsDecide(a: map<string, Value>, b: map<string, Value>, volatile: string -> bool)
    requires forall k :: k in a && k in b ==>
               (Normalize(a[k], volatile) == Normalize(b[k], volatile) <==> SameInput(a[k], b[k], volatile))
    ensures Normalize(Object(a), volatile) == Normalize(Object(b), volatile)
       <==> SameInput(Object(a), Object(b), volatile)
  {
    var na, nb := Normalize(Object(a), volatile).fields, Normalize(Object(b), volatile).fields;
    forall k: string
      ensures k in na <==> Matters(a, k, volatile)
      ensures k in nb <==> Matters(b, k, volatile)
      ensures k in na ==> na[k] == Normalize(a[k], volatile)
      ensures k in nb ==> nb[k] == Normalize(b[k], volatile)
    {
      NormalFields(a, volatile, k);
      NormalFields(b, volatile, k);
    }
    if SameInput(Object(a), Object(b), volatile) {
      assert na == nb;
    }
    if na == nb {
      forall k: string
        ensures Matters(a, k, volatile) <==> Matters(b, k, volatile)
        ensures Matters(a, k, volatile) ==> SameInput(a[k], b[k], volatile)
      {
        assert k in na <==> k in nb;
      }
    }
  }

  /** No volatile key, no nil entry and no unrendered scalar, at any depth. */
  ghost predicate Clean(v: Value, volatile: string -> bool)
    decreases v
  {
    match v
    case List(items) => forall i :: 0 <= i < |items| ==> Clean(items[i], volatile)
    case Object(fields) =>
      forall k :: k in fields ==> !volatile(k) && fields[k] != Nil && Clean(fields[k], volatile)
    case _ => !v.Number? && !v.Other?
  }

  lemma {:induction false} NormalFormIsClean(v: Value, volatile: string -> bool)
    ensures Clean(Normalize(v, volatile), volatile)
    decreases v
  {
    match v
    case List(items) =>
      forall i | 0 <= i < |items|
        ensures Clean(Normalize(items[i], volatile), volatile)
      {
        NormalFormIsClean(items[i], volatile);
      }
    case Object(fields) =>
      forall k | k in fields
        ensures Clean(Normalize(fields[k], volatile), volatile)
      {
        NormalFormIsClean(fields[k], volatile);
      }
    case _ =>
  }

  /** A clean value is its own normal form; so normalising twice changes nothing. */
  lemma {:induction false} CleanIsNormal(v: Value, volatile: string -> bool)
    requires Clean(v, volatile)
    ensures Normalize(v, volatile) == v
    decreases v
  {
    match v
    case List(items) =>
      forall i | 0 <= i < |items|
        ensures Normalize(items[i], volatile) == items[i]
      {
        CleanIsNormal(items[i], volatile);
      }
      assert Normalize(v, volatile).items == items;
    case Object(fields) =>
      forall k | k in fields
        ensures Normalize(fields[k], volatile) == fields[k]
      {
        CleanIsNormal(fields[k], volatile);
      }
      assert Normalize(v, volatile).fields == fields;
    case _ =>
  }

  lemma NormalizeIdempotent(v: Value, volatile: string -> bool)
    ensures Normalize(Normalize(v, volatile), volatile) == Normalize(v, volatile)
  {
    NormalFormIsClean(v, volatile);
    CleanIsNormal(Normalize(v, volatile), volatile);
  }

  // ----- Volatile keys -----

  const DEFAULT_VOLATILE_KEYS := {
    "toolcallid", "requestid", "traceid", "spanid", "sessionid", "timestamp",
    "createdat", "updatedat", "expiresat", "nonce" }

  const VOLATILE_KEY_SUFFIXES := [
    "requestid", "traceid", "sessionid", "toolcallid", "timestamp", "createdat", "updatedat", "expiresat" ]

  /** isVolatileKey; `fold` is normalizeKeyName, the case folding that keeps letters and digits. */
  predicate IsVolatileKey(key: string, volatileSet: set<string>, fold: string -> string) {
    var normalized := fold(key);
    && normalized != ""
    && (|| normalized in volatileSet
        || exists i :: 0 <= i < |VOLATILE_KEY_SUFFIXES| && HasSuffix(normalized, VOLATILE_KEY_SUFFIXES[i]))
  }

  /** The keys that do not matter by default, by their folded names. */
  predicate NamesVolatile(name: string) {
    || name == "spanid" || name == "nonce"
    || exists ending :: ending in {"requestid", "traceid", "sessionid", "toolcallid", "timestamp", "createdat",
                                   "updatedat", "expiresat"} && HasSuffix(name, ending)
  }

  lemma VolatileByName(key: string, fold: string -> string)
    ensures IsVolatileKey(key, DEFAULT_VOLATILE_KEYS, fold) <==> NamesVolatile(fold(key))
  {
    var name, endings := fold(key), VOLATILE_KEY_SUFFIXES;
    EndsInItself(name);
    if i :| 0 <= i < |endings| && HasSuffix(name, endings[i]) {
      assert NamesVolatile(name);
    }
    if NamesVolatile(name) && name != "spanid" && name != "nonce" {
      assert || HasSuffix(name, endings[0]) || HasSuffix(name, endings[1]) || HasSuffix(name, endings[2])
             || HasSuffix(name, endings[3]) || HasSuffix(name, endings[4]) || HasSuffix(name, endings[5])
             || HasSuffix(name, endings[6]) || HasSuffix(name, endings[7]);
    }
  }

  lemma EndsInItself(name: string)
    ensures HasSuffix(name, name)
  {
  }

  // ----- The guard -----

  const TOOL_LOOP_REPEAT_THRESHOLD := 5
  const TOOL_LOOP_WARNINGS_BEFORE_ABORT := 1

  /** A digest is a hexadecimal string, never empty. */
  type Hash = h: string | h != "" witness "0"

  datatype ToolLoopInput = ToolLoopInput(toolName: string, input: Value)

  datatype ToolLoopResult = ToolLoopResult(hash: Hash, repeatCount: nat, breachCount: nat, warn: bool, abort: bool)

  /** What has happened to a guard: calls, by their hash, and resets. */
  datatype Event = Call(hash: Hash) | Reset

  /** How many times the last call has been made in a row: the length of the longest
      suffix of the trace that repeats one call. */
  function RunLength(trace: seq<Event>): nat {
    if trace == [] || trace[|trace| - 1].Reset? then 0
    else if |trace| >= 2 && trace[|trace| - 2] == trace[|trace| - 1] then RunLength(trace[..|trace| - 1]) + 1
    else 1
  }

  lemma {:induction false} RunLengthIsMaximalRun(trace: seq<Event>)
    ensures var k := RunLength(trace);
            && k <= |trace|
            && (k == 0 <==> trace == [] || trace[|trace| - 1].Reset?)
            && (forall i :: |trace| - k <= i < |trace| ==> trace[i] == trace[|trace| - 1])
            && (0 < k < |trace| ==> trace[|trace| - k - 1] != trace[|trace| - 1])
  {
    if |trace| >= 2 && trace[|trace| - 2] == trace[|trace| - 1] {
      var earlier := trace[..|trace| - 1];
      RunLengthIsMaximalRun(earlier);
      assert forall i :: 0 <= i < |earlier| ==> earlier[i] == trace[i];
    }
  }

  lemma RunLengthSnoc(trace: seq<Event>, e: Event)
    ensures RunLength(trace + [e]) ==
            if e.Reset? then 0
            else if trace != [] && trace[|trace| - 1] == e then RunLength(trace) + 1
            else 1
  {
    var all := trace + [e];
    assert all[..|all| - 1] == trace && all[|all| - 1] == e;
    if trace == [] {
      assert |all| == 1;
    } else {
      assert |all| >= 2 && all[|all| - 2] == trace[|trace| - 1];
    }
  }

  /** One more repetition, in rounds of m. */
  lemma NextInRound(k: nat, m: nat)
    requires m >= 1
    ensures k % m == m - 1 ==> (k + 1) / m == k / m + 1 && (k + 1) % m == 0
    ensures k % m < m - 1 ==> (k + 1) / m == k / m && (k + 1) % m == k % m + 1
  {
    var q, r := k / m, k % m;
    if r == m - 1 {
      assert k + 1 == (q + 1) * m;
      DivisionIsUnique(k + 1, m, q + 1, 0);
    } else {
      DivisionIsUnique(k + 1, m, q, r + 1);
    }
  }

  lemma DivisionIsUnique(x: nat, m: nat, q: nat, r: nat)
    requires m >= 1 && r < m && x == q * m + r
    ensures x / m == q && x % m == r
  {
    assert x == (x / m) * m + x % m;
    var d: int := x / m - q;
    assert d * m == r - x % m;
    MultipleBound(d, m);
  }

  lemma MultipleBound(d: int, m: int)
    requires m >= 1
    ensures d >= 1 ==> d * m >= m
    ensures d <= -1 ==> d * m <= -m
  {
  }

  lemma MultiplyKeepsOrder(a: nat, b: nat, m: nat)
    requires a <= b
    ensures a * m <= b * m
  {
  }

  /** k / m <= w exactly below (w + 1) * m. */
  lemma RoundsBelow(k: nat, m: nat, w: nat)
    requires m >= 1
    ensures k / m <= w <==> k < (w + 1) * m
  {
    var q := k / m;
    assert k == q * m + k % m;
    assert (w + 1) * m == w * m + m;
    if q <= w {
      MultiplyKeepsOrder(q, w, m);
    } else {
      MultiplyKeepsOrder(w + 1, q, m);
    }
  }

  function Times(j: nat, m: nat): nat {
    j * m
  }

  /** The thresholds of a guard: calls allowed in a row, warnings before it aborts. */
  datatype Limits = Limits(repeats: nat, warnings: nat) {

    /** A round is one more call than the threshold. */
    function Round(): nat {
      repeats + 1
    }

    /** The k-th call in a row draws a warning. */
    predicate Warns(k: nat) {
      k >= 1 && k % Round() == 0 && k / Round() <= warnings
    }

    /** The k-th call in a row draws an abort. */
    predicate Aborts(k: nat) {
      k >= (warnings + 1) * Round()
    }

    /** The repeat counter after k calls in a row: it starts over with every round that
        ended in a warning, and counts on after the last one. */
    function RepeatCount(k: nat): nat {
      if Aborts(k) then
        assert (warnings + 1) * Round() == warnings * Round() + Round();
        k - warnings * Round()
      else k % Round()
    }

    /** The breach counter after k calls in a row. */
    function BreachCount(k: nat): nat {
      if Aborts(k) then k - (warnings + 1) * Round() + warnings + 1 else k / Round()
    }

    /** The counters in closed form step as the guard does. */
    lemma CountersStep(k: nat)
      ensures RepeatCount(k) + 1 <= repeats ==>
                && RepeatCount(k + 1) == RepeatCount(k) + 1
                && BreachCount(k + 1) == BreachCount(k)
                && !Warns(k + 1) && !Aborts(k + 1)
      ensures RepeatCount(k) + 1 > repeats && BreachCount(k) < warnings ==>
                && RepeatCount(k + 1) == 0
                && BreachCount(k + 1) == BreachCount(k) + 1
                && Warns(k + 1) && !Aborts(k + 1)
      ensures RepeatCount(k) + 1 > repeats && BreachCount(k) >= warnings ==>
                && RepeatCount(k + 1) == RepeatCount(k) + 1
                && BreachCount(k + 1) == BreachCount(k) + 1
                && !Warns(k + 1) && Aborts(k + 1)
    {
      hide Aborts, Warns, RepeatCount, BreachCount;
      if Aborts(k) {
        StepPast(k);
      } else if k % Round() < repeats {
        StepInside(k);
      } else {
        StepAtEnd(k);
      }
    }

    lemma StepInside(k: nat)
      requires !Aborts(k) && k % Round() < repeats
      ensures RepeatCount(k) + 1 <= repeats && RepeatCount(k + 1) == RepeatCount(k) + 1
      ensures BreachCount(k + 1) == BreachCount(k) && !Warns(k + 1) && !Aborts(k + 1)
    {
      NextInRound(k, Round());
      RoundsBelow(k, Round(), warnings);
      RoundsBelow(k + 1, Round(), warnings);
    }

    lemma StepAtEnd(k: nat)
      requires !Aborts(k) && k % Round() == repeats
      ensures RepeatCount(k) + 1 > repeats && BreachCount(k + 1) == BreachCount(k) + 1
      ensures BreachCount(k) < warnings ==> RepeatCount(k + 1) == 0 && Warns(k + 1) && !Aborts(k + 1)
      ensures BreachCount(k) >= warnings ==>
                RepeatCount(k + 1) == RepeatCount(k) + 1 && !Warns(k + 1) && Aborts(k + 1)
    {
      var m := Round();
      NextInRound(k, m);
      RoundsBelow(k, m, warnings);
      RoundsBelow(k + 1, m, warnings);
      assert (warnings + 1) * m == warnings * m + m;
      if k / m >= warnings {
        assert k / m == warnings;
        assert k == (k / m) * m + k % m;
      }
    }

    lemma StepPast(k: nat)
      requires Aborts(k)
      ensures RepeatCount(k) + 1 > repeats && BreachCount(k) >= warnings
      ensures RepeatCount(k + 1) == RepeatCount(k) + 1 && BreachCount(k + 1) == BreachCount(k) + 1
      ensures !Warns(k + 1) && Aborts(k + 1)
    {
      RoundsBelow(k + 1, Round(), warnings);
      assert (warnings + 1) * Round() == warnings * Round() + Round();
    }

    /** A run of identical calls draws its warnings at the calls j * Round() for j from 1 to
        `warnings` and at no other, all before the first abort. */
    lemma WarnsAtRoundEnds(k: nat)
      ensures Warns(k) <==> exists j: nat :: 1 <= j <= warnings && k == Times(j, Round())
      ensures Warns(k) ==> !Aborts(k)
    {
      var m := Round();
      assert k == (k / m) * m + k % m;
      RoundsBelow(k, m, warnings);
      if Warns(k) {
        assert k == Times(k / m, m);
      }
      if exists j: nat :: 1 <= j <= warnings && k == Times(j, m) {
        var j: nat :| 1 <= j <= warnings && k == Times(j, m);
        DivisionIsUnique(k, m, j, 0);
      }
    }

    lemma CountersStart()
      ensures RepeatCount(0) == 0 && BreachCount(0) == 0
    {
      NextInRound(0, Round());
      DivisionIsUnique(0, Round(), 0, 0);
      assert (warnings + 1) * Round() >= 1;
    }
  }

  class ToolLoopGuard {
    const repeatThreshold: nat
    const warningsBeforeAbort: nat
    const volatile: string -> bool
    const digest: (string, Value) -> Hash  // SHA-256 of the serialised tool name and normalised input
    var lastHash: string
    var repeatCount: nat
    var breachCount: nat
    var breachHash: string
    ghost var trace: seq<Event>

    constructor (repeatThreshold: int, warningsBeforeAbort: int, fold: string -> string,
                 digest: (string, Value) -> Hash)
      ensures Valid() && trace == []
      ensures this.repeatThreshold == if repeatThreshold <= 0 then 5 else repeatThreshold
      ensures this.warningsBeforeAbort == if warningsBeforeAbort <= 0 then 1 else warningsBeforeAbort
      ensures forall key :: this.volatile(key) <==> NamesVolatile(fold(key))
      ensures this.digest == digest
    {
      this.repeatThreshold := if repeatThreshold <= 0 then TOOL_LOOP_REPEAT_THRESHOLD else repeatThreshold;
      this.warningsBeforeAbort :=
        if warningsBeforeAbort <= 0 then TOOL_LOOP_WARNINGS_BEFORE_ABORT else warningsBeforeAbort;
      this.volatile := k => IsVolatileKey(k, DEFAULT_VOLATILE_KEYS, fold);
      this.digest := digest;
      lastHash, repeatCount, breachCount, breachHash := "", 0, 0, "";
      trace := [];
      new;
      Thresholds().CountersStart();
      hide NamesVolatile, IsVolatileKey;
      forall key
        ensures this.volatile(key) <==> NamesVolatile(fold(key))
      {
        VolatileByName(key, fold);
      }
    }

    ghost function Thresholds(): Limits {
      Limits(repeatThreshold, warningsBeforeAbort)
    }

    /** The counters are those of the run that ends the trace, in closed form; the last
        hash is forgotten exactly when a warning has just started a new round. */
    ghost predicate Valid()
      reads this
    {
      var k := RunLength(trace);
      && repeatCount == Thresholds().RepeatCount(k)
      && breachCount == Thresholds().BreachCount(k)
      && breachHash == LastHash()
      && lastHash == if repeatCount == 0 then "" else LastHash()
    }

    ghost function LastHash(): string
      reads this
    {
      if trace == [] || trace[|trace| - 1].Reset? then "" else trace[|trace| - 1].hash
    }

    ghost function HashOf(input: ToolLoopInput): Hash {
      digest(TrimSpace(input.toolName), Normalize(input.input, volatile))
    }

    /** Two calls are the same when they name the same tool, up to white space around the name,
        and their inputs agree on what matters. */
    ghost predicate SameCall(a: ToolLoopInput, b: ToolLoopInput) {
      TrimSpace(a.toolName) == TrimSpace(b.toolName) && SameInput(a.input, b.input, volatile)
    }

    /** The same calls have the same hash; and with a digest that tells all serialisations
        apart, only these do. */
    lemma HashDecides(a: ToolLoopInput, b: ToolLoopInput)
      ensures SameCall(a, b) ==> HashOf(a) == HashOf(b)
      ensures (forall n, v, n', v' :: digest(n, v) == digest(n', v') ==> n == n' && v == v') ==>
                (HashOf(a) == HashOf(b) <==> SameCall(a, b))
    {
      hide TrimSpace, Normalize;
      NormalFormDecides(a.input, b.input, volatile);
    }

    /** Inspecting a call: it warns exactly on the last call of each of the first
        `warningsBeforeAbort` rounds, and aborts exactly from the end of the next round on. */
    method Inspect(input: ToolLoopInput) returns (r: ToolLoopResult)
      requires Valid()
      modifies this
      ensures Valid()
      ensures trace == old(trace) + [Call(HashOf(input))]
      ensures r.hash == HashOf(input)
      ensures r.repeatCount == repeatCount && r.breachCount == breachCount
      ensures r.warn <==> Thresholds().Warns(RunLength(trace))
      ensures r.abort <==> Thresholds().Aborts(RunLength(trace))
    {
      hide Limits.RepeatCount, Limits.BreachCount, Limits.Warns, Limits.Aborts, RunLength, TrimSpace, Normalize;
      var hash: Hash := digest(TrimSpace(input.toolName), Normalize(input.input, volatile));
      ghost var k := if LastHash() == hash then RunLength(trace) else 0;
      ghost var limits := Thresholds();
      RunLengthSnoc(trace, Call(hash));
      limits.CountersStart();
      limits.CountersStep(k);
      trace := trace + [Call(hash)];
      assert RunLength(trace) == k + 1;

      if hash == lastHash {
        repeatCount := repeatCount + 1;
      } else {
        lastHash := hash;
        repeatCount := 1;
      }
      if breachHash != hash {
        breachHash := hash;
        breachCount := 0;
      }
      assert repeatCount == limits.RepeatCount(k) + 1 && breachCount == limits.BreachCount(k);
      var warn, abort := false, false;
      if repeatCount > repeatThreshold {
        if breachCount < warningsBeforeAbort {
          breachCount := breachCount + 1;
          warn := true;
          lastHash := "";
          repeatCount := 0;
        } else {
          breachCount := breachCount + 1;
          abort := true;
        }
      }
      r := ToolLoopResult(hash, repeatCount, breachCount, warn, abort);
    }

    method Reset()
      requires Valid()
      modifies this
      ensures Valid()
      ensures trace == old(trace) + [Event.Reset]
    {
      RunLengthSnoc(trace, Event.Reset);
      Thresholds().CountersStart();
      lastHash, repeatCount, breachCount, breachHash := "", 0, 0, "";
      trace := trace + [Event.Reset];
    }
  }
}
