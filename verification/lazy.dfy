/**
 The deferred capability mixin: one view over a base property bag and an
 instance bag that an initializer builds on first need. A property the base
 holds a truthy value for is read from the base; any other property forces
 the initializer (once, then memoised) and is read from the instance.
 Function values come back bound to the object they were read from.
 */
module Lazy {
  import opened Wrappers

  /** The JavaScript values the model distinguishes. */
  datatype Value =
    | Undefined
    | Null
    | Bool(b: bool)
    | Number(x: int)
    | NaN
    | Str(s: string)
    | Object(id: nat)
    | Function(id: nat)

  /** The values JavaScript treats as false in a condition. */
  const FalsyValues: set<Value> := {Undefined, Null, Bool(false), Number(0), NaN, Str("")}

  /** JavaScript truthiness, decided by the kind of value. */
  predicate Truthy(v: Value)
    ensures Truthy(v) <==> v !in FalsyValues
  {
    match v
    case Undefined => false
    case Null => false
    case Bool(b) => b
    case Number(x) => x != 0
    case NaN => false
    case Str(s) => s != ""
    case Object(_) => true
    case Function(_) => true
  }

  /** A property key: a string name, or a symbol (identified here by its description). */
  datatype Key = Name(name: string) | Symbol(description: string)

  type Bag = map<Key, Value>

  /**
   The members every ordinary object inherits from `Object.prototype`. All
   are functions except the `__proto__` accessor, which yields the
   prototype object. None of them is keyed by a symbol.
   */
  const ObjectPrototype: Bag := map[
    Name("constructor") := Function(100),
    Name("hasOwnProperty") := Function(101),
    Name("isPrototypeOf") := Function(102),
    Name("propertyIsEnumerable") := Function(103),
    Name("toLocaleString") := Function(104),
    Name("toString") := Function(105),
    Name("valueOf") := Function(106),
    Name("__defineGetter__") := Function(107),
    Name("__defineSetter__") := Function(108),
    Name("__lookupGetter__") := Function(109),
    Name("__lookupSetter__") := Function(110),
    Name("__proto__") := Object(100)
  ]

  /**
   Property read on an ordinary object whose own properties are `bag`: an
   own property first, then an inherited one, and `undefined` otherwise.
   */
  function Lookup(bag: Bag, prop: Key): Value {
    if prop in bag then bag[prop]
    else if prop in ObjectPrototype then ObjectPrototype[prop]
    else Undefined
  }

  datatype Owner = Base | Instance

  /** What a read yields: a plain value, or a function bound to its owner. */
  datatype Got = Plain(v: Value) | Bound(f: Value, owner: Owner)

  function Bind(v: Value, owner: Owner): Got
  {
    if v.Function? then Bound(v, owner) else Plain(v)
  }

  /** The memo and the number of times the initializer has run. */
  datatype State = State(instance: Option<Bag>, initCalls: nat)

  const Fresh: State := State(None, 0)

  /** The base answers `prop` exactly when it holds a truthy value for it. */
  predicate FromBase(base: Bag, prop: Key) {
    Truthy(Lookup(base, prop))
  }

  /** Memo reachable from `Fresh`: empty and never initialised, or the initializer's bag after one call. */
  predicate Consistent(init: () -> Bag, st: State) {
    || st == Fresh
    || st == State(Some(init()), 1)
  }

  /** The combined object the mixin presents, read property by property. */
  function MergedView(base: Bag, init: () -> Bag, prop: Key): Got {
    if FromBase(base, prop) then Bind(Lookup(base, prop), Base)
    else Bind(Lookup(init(), prop), Instance)
  }

  /** One property read through the proxy: the new memo and what the read yields. */
  function Step(base: Bag, init: () -> Bag, st: State, prop: Key): (res: (State, Got))
    requires Consistent(init, st)
    ensures Consistent(init, res.0)
    ensures res.1 == MergedView(base, init, prop)
    ensures FromBase(base, prop) ==> res.0 == st
    ensures !FromBase(base, prop) ==> res.0.instance == Some(init())
  {
    if FromBase(base, prop) then
      var res := Lookup(base, prop);
      (st, Bind(res, Base))
    else
      var st' := if st.instance.None? then State(Some(init()), st.initCalls + 1) else st;
      (st', Bind(Lookup(st'.instance.value, prop), Instance))
  }

  /** A sequence of reads, in order. */
  function Run(base: Bag, init: () -> Bag, st: State, props: seq<Key>): (res: (State, seq<Got>))
    requires Consistent(init, st)
    ensures Consistent(init, res.0)
    ensures |res.1| == |props|
    decreases |props|
  {
    if |props| == 0 then (st, [])
    else
      var (st1, g) := Step(base, init, st, props[0]);
      var (st2, gs) := Run(base, init, st1, props[1..]);
      (st2, [g] + gs)
  }

  /** Some read in `props` has to go to the instance. */
  predicate NeedsInstance(base: Bag, props: seq<Key>) {
    exists i :: 0 <= i < |props| && !FromBase(base, props[i])
  }

  /**
   After any reads from a fresh proxy the initializer has run once if some
   read fell through to the instance, and not at all otherwise.
   */
  lemma {:induction false} RunState(base: Bag, init: () -> Bag, st: State, props: seq<Key>)
    requires Consistent(init, st)
    ensures Run(base, init, st, props).0
            == if st.instance.None? && !NeedsInstance(base, props) then st else State(Some(init()), 1)
    decreases |props|
  {
    if |props| > 0 {
      var st1 := Step(base, init, st, props[0]).0;
      RunState(base, init, st1, props[1..]);
      if NeedsInstance(base, props[1..]) {
        var i :| 0 <= i < |props[1..]| && !FromBase(base, props[1..][i]);
        assert props[i + 1] == props[1..][i];
      }
      if !FromBase(base, props[0]) {
        assert NeedsInstance(base, props);
      }
      if NeedsInstance(base, props) && FromBase(base, props[0]) {
        var i :| 0 <= i < |props| && !FromBase(base, props[i]);
        assert props[1..][i - 1] == props[i];
      }
    }
  }

  /** The initializer runs at most once over any sequence of reads. */
  lemma InitAtMostOnce(base: Bag, init: () -> Bag, props: seq<Key>)
    ensures Run(base, init, Fresh, props).0.initCalls <= 1
  {
  }

  /** Reads that all hit the base leave the instance unbuilt, and only those do. */
  lemma Laziness(base: Bag, init: () -> Bag, props: seq<Key>)
    ensures Run(base, init, Fresh, props).0 == Fresh <==> forall i :: 0 <= i < |props| ==> FromBase(base, props[i])
    ensures Run(base, init, Fresh, props).0.initCalls == 1 <==> NeedsInstance(base, props)
  {
    RunState(base, init, Fresh, props);
  }

  /**
   Every read of a sequence returns what the combined object holds: the
   base's value bound to the base, or the cached instance's bound to it.
   */
  lemma {:induction false} RunReadsMergedView(base: Bag, init: () -> Bag, st: State, props: seq<Key>)
    requires Consistent(init, st)
    ensures forall i :: 0 <= i < |props| ==> Run(base, init, st, props).1[i] == MergedView(base, init, props[i])
    decreases |props|
  {
    if |props| > 0 {
      var (st1, g) := Step(base, init, st, props[0]);
      RunReadsMergedView(base, init, st1, props[1..]);
      var gs := Run(base, init, st1, props[1..]).1;
      forall i | 0 <= i < |props|
        ensures Run(base, init, st, props).1[i] == MergedView(base, init, props[i])
      {
        if i > 0 {
          assert ([g] + gs)[i] == gs[i - 1];
          assert props[1..][i - 1] == props[i];
        }
      }
    }
  }

  /** A truthy base property comes from the base, bound to it, and forces nothing. */
  lemma BaseHit(base: Bag, init: () -> Bag, st: State, prop: Key)
    requires Consistent(init, st)
    requires prop in base && Truthy(base[prop])
    ensures Step(base, init, st, prop).0 == st
    ensures Step(base, init, st, prop).1 == Bind(base[prop], Base)
  {
  }

  /**
   A base property that is present but falsy reads as the instance's: as if
   absent when nothing of that name is inherited, and shadowing the
   inherited member otherwise.
   */
  lemma FalsyFallsThrough(base: Bag, init: () -> Bag, st: State, prop: Key)
    requires Consistent(init, st)
    requires prop in base && !Truthy(base[prop])
    ensures prop !in ObjectPrototype ==> Step(base, init, st, prop) == Step(base - {prop}, init, st, prop)
    ensures Step(base, init, st, prop).1 == Bind(Lookup(init(), prop), Instance)
    ensures Step(base, init, st, prop).0 == State(Some(init()), 1)
  {
  }

  /** An own `valueOf: 0` hides the inherited `valueOf`, so the read builds the instance. */
  lemma FalsyOwnShadowsInherited(init: () -> Bag)
    ensures Step(map[Name("valueOf") := Number(0)], init, Fresh, Name("valueOf")).0 == State(Some(init()), 1)
    ensures Step(map[], init, Fresh, Name("valueOf")) == (Fresh, Bound(Function(106), Base))
  {
  }

  /** Once built, the instance is kept: further reads neither rebuild nor replace it. */
  lemma InstanceIsCached(base: Bag, init: () -> Bag, st: State, props: seq<Key>)
    requires Consistent(init, st) && st.instance.Some?
    ensures Run(base, init, st, props).0 == st
  {
  }

  /**
   The proxy object itself: `instance` is the memo, `initCalls` counts the
   initializer's runs.
   */
  class LazyProxy {
    const base: Bag
    const init: () -> Bag
    var instance: Option<Bag>
    ghost var initCalls: nat

    ghost predicate Valid()
      reads this
    {
      Consistent(init, State(instance, initCalls))
    }

    constructor(base: Bag, init: () -> Bag)
      ensures Valid()
      ensures this.base == base && this.init == init
      ensures instance == None && initCalls == 0
    {
      this.base := base;
      this.init := init;
      instance := None;
      initCalls := 0;
    }

    /** The proxy's `get` trap. */
    method Get(prop: Key) returns (r: Got)
      requires Valid()
      modifies this
      ensures Valid()
      ensures (State(instance, initCalls), r) == Step(base, init, old(State(instance, initCalls)), prop)
    {
      if Truthy(Lookup(base, prop)) {
        var res := Lookup(base, prop);
        return Bind(res, Base);
      }
      if instance.None? {
        instance := Some(init());
        initCalls := initCalls + 1;
      }
      var res := Lookup(instance.value, prop);
      r := Bind(res, Instance);
    }
  }
}
