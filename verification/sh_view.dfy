/**
 The command value as an object. Two deferred capability mixins are stacked:

 - the outer one has the metadata (`args`, `in`, `with`, `toString`) as its
   base; its initializer hands over the stream proxy built with the
   command, and has no effect of its own;
 - the stream proxy has an empty object as its base; its initializer spawns
   the process and builds the stream.

 A read the outer base does not answer is passed to the stream proxy, so
 the spawn happens on the first such read.
 */
module ShView {
  import opened Wrappers
  import Lazy

  /** The properties a command value answers from its own metadata. */
  const MetadataKeys: set<Lazy.Key> := {Lazy.Name("args"), Lazy.Name("in"), Lazy.Name("with"), Lazy.Name("toString")}

  /**
   The outer base's own properties. The `args` array is an object, truthy
   even when empty; the three methods are functions. The values are opaque,
   so the bag is the same for every command.
   */
  function ShBase(): (bag: Lazy.Bag)
    ensures bag.Keys == MetadataKeys
    ensures forall p :: Lazy.FromBase(bag, p) <==> p in MetadataKeys || p in Lazy.ObjectPrototype
  {
    map[Lazy.Name("args") := Lazy.Object(0), Lazy.Name("in") := Lazy.Function(1),
        Lazy.Name("with") := Lazy.Function(2), Lazy.Name("toString") := Lazy.Function(3)]
  }

  /** Reads the outer base answers: its own metadata and what every object inherits. */
  predicate Answered(prop: Lazy.Key) {
    prop in MetadataKeys || prop in Lazy.ObjectPrototype
  }

  /** The outer initializer returns the stream proxy, whose target has no own properties. */
  const HandOver: () -> Lazy.Bag := () => map[]

  /** The memo of each layer. */
  datatype Layers = Layers(outer: Lazy.State, stream: Lazy.State)

  const Unobserved: Layers := Layers(Lazy.Fresh, Lazy.Fresh)

  predicate LayersConsistent(spawn: () -> Lazy.Bag, st: Layers) {
    Lazy.Consistent(HandOver, st.outer) && Lazy.Consistent(spawn, st.stream)
  }

  /** What a read of the command value yields: metadata from the outer base, anything else from the spawned handle. */
  function ShMergedView(spawn: () -> Lazy.Bag, prop: Lazy.Key): Lazy.Got {
    if Answered(prop) then Lazy.Bind(Lazy.Lookup(ShBase(), prop), Lazy.Base)
    else Lazy.Bind(Lazy.Lookup(spawn(), prop), Lazy.Instance)
  }

  /**
   One read of the command value. An outer fall-through reads the property
   from the stream proxy; the function that comes back is already bound,
   and binding it again does not change its receiver.
   */
  function ShStep(spawn: () -> Lazy.Bag, st: Layers, prop: Lazy.Key): (res: (Layers, Lazy.Got))
    requires LayersConsistent(spawn, st)
    ensures LayersConsistent(spawn, res.0)
    ensures res.1 == ShMergedView(spawn, prop)
    ensures Answered(prop) ==> res.0 == st
    ensures !Answered(prop) ==> res.0.stream == Lazy.State(Some(spawn()), 1)
  {
    var (outer', g) := Lazy.Step(ShBase(), HandOver, st.outer, prop);
    if Lazy.FromBase(ShBase(), prop) then (Layers(outer', st.stream), g)
    else
      var (stream', g') := Lazy.Step(map[], spawn, st.stream, prop);
      (Layers(outer', stream'), g')
  }

  /** A sequence of reads of the command value. */
  function ShRun(spawn: () -> Lazy.Bag, st: Layers, props: seq<Lazy.Key>): (res: (Layers, seq<Lazy.Got>))
    requires LayersConsistent(spawn, st)
    ensures LayersConsistent(spawn, res.0)
    ensures |res.1| == |props|
    decreases |props|
  {
    if |props| == 0 then (st, [])
    else
      var (st1, g) := ShStep(spawn, st, props[0]);
      var (st2, gs) := ShRun(spawn, st1, props[1..]);
      (st2, [g] + gs)
  }

  /** Some read goes past the metadata. */
  predicate ReachesStream(props: seq<Lazy.Key>) {
    exists i :: 0 <= i < |props| && !Answered(props[i])
  }

  lemma {:induction false} ShRunState(spawn: () -> Lazy.Bag, st: Layers, props: seq<Lazy.Key>)
    requires LayersConsistent(spawn, st)
    ensures ShRun(spawn, st, props).0.stream
            == if st.stream.instance.None? && !ReachesStream(props) then st.stream else Lazy.State(Some(spawn()), 1)
    ensures !ReachesStream(props) ==> ShRun(spawn, st, props).0 == st
    decreases |props|
  {
    if |props| > 0 {
      var st1 := ShStep(spawn, st, props[0]).0;
      ShRunState(spawn, st1, props[1..]);
      if ReachesStream(props[1..]) {
        var i :| 0 <= i < |props[1..]| && !Answered(props[1..][i]);
        assert props[i + 1] == props[1..][i];
      }
      if !Answered(props[0]) {
        assert ReachesStream(props);
      }
      if ReachesStream(props) && Answered(props[0]) {
        var i :| 0 <= i < |props| && !Answered(props[i]);
        assert props[1..][i - 1] == props[i];
      }
      if !ReachesStream(props) {
        assert forall i :: 0 <= i < |props[1..]| ==> props[1..][i] == props[i + 1];
      }
    }
  }

  /** Reading metadata and inherited members only never spawns a process. */
  lemma MetadataReadsDoNotSpawn(spawn: () -> Lazy.Bag, props: seq<Lazy.Key>)
    requires forall i :: 0 <= i < |props| ==> Answered(props[i])
    ensures ShRun(spawn, Unobserved, props).0 == Unobserved
  {
    ShRunState(spawn, Unobserved, props);
  }

  /** A read of anything else spawns, and however many reads follow, the process is spawned once. */
  lemma StreamReadSpawnsOnce(spawn: () -> Lazy.Bag, props: seq<Lazy.Key>, i: nat)
    requires i < |props| && !Answered(props[i])
    ensures ShRun(spawn, Unobserved, props).0.stream == Lazy.State(Some(spawn()), 1)
  {
    ShRunState(spawn, Unobserved, props);
  }

  /** A command value spawns at most one process, and one exactly when some read goes past the metadata. */
  lemma SpawnsAtMostOnce(spawn: () -> Lazy.Bag, props: seq<Lazy.Key>)
    ensures ShRun(spawn, Unobserved, props).0.stream.initCalls <= 1
    ensures ShRun(spawn, Unobserved, props).0.stream.initCalls == 1 <==> ReachesStream(props)
  {
    ShRunState(spawn, Unobserved, props);
  }

  /** Every read of a sequence yields what the combined command object holds. */
  lemma {:induction false} ShRunReads(spawn: () -> Lazy.Bag, st: Layers, props: seq<Lazy.Key>)
    requires LayersConsistent(spawn, st)
    ensures forall i :: 0 <= i < |props| ==> ShRun(spawn, st, props).1[i] == ShMergedView(spawn, props[i])
    decreases |props|
  {
    if |props| > 0 {
      var (st1, g) := ShStep(spawn, st, props[0]);
      ShRunReads(spawn, st1, props[1..]);
      var gs := ShRun(spawn, st1, props[1..]).1;
      forall i | 0 <= i < |props|
        ensures ShRun(spawn, st, props).1[i] == ShMergedView(spawn, props[i])
      {
        if i > 0 {
          assert ([g] + gs)[i] == gs[i - 1];
          assert props[1..][i - 1] == props[i];
        }
      }
    }
  }

  /**
   The stream proxy on its own: over its empty base, a run builds the stream
   exactly when some read names a member no object inherits.
   */
  lemma StreamLayerInitialises(init: () -> Lazy.Bag, props: seq<Lazy.Key>)
    ensures Lazy.Run(map[], init, Lazy.Fresh, props).0.initCalls == 1
            <==> exists i :: 0 <= i < |props| && props[i] !in Lazy.ObjectPrototype
  {
    Lazy.Laziness(map[], init, props);
    EmptyBaseAnswersInherited();
    assert Lazy.NeedsInstance(map[], props) <==> exists i :: 0 <= i < |props| && props[i] !in Lazy.ObjectPrototype;
  }

  /** An object with no own properties answers exactly the inherited members. */
  lemma EmptyBaseAnswersInherited()
    ensures forall p :: Lazy.FromBase(map[], p) <==> p in Lazy.ObjectPrototype
  {
  }

  /** `valueOf` is inherited, so reading it from the command value spawns nothing. */
  lemma InheritedReadDoesNotSpawn(spawn: () -> Lazy.Bag)
    ensures ShRun(spawn, Unobserved, [Lazy.Name("valueOf")]).0 == Unobserved
  {
    MetadataReadsDoNotSpawn(spawn, [Lazy.Name("valueOf")]);
  }

  /**
   Turning a command value into a string (`String(cmd)`, a template
   literal) first reads `Symbol.toPrimitive`. No base answers a symbol, so
   that read spawns the process.
   */
  lemma StringCoercionSpawns(spawn: () -> Lazy.Bag)
    ensures ShRun(spawn, Unobserved, [Lazy.Symbol("Symbol.toPrimitive")]).0.stream == Lazy.State(Some(spawn()), 1)
  {
    StreamReadSpawnsOnce(spawn, [Lazy.Symbol("Symbol.toPrimitive")], 0);
  }

  /**
   Destructuring the argument vector into the executable and its arguments.
   An empty vector leaves no executable; the spawn that follows then fails.
   */
  function SplitCommand(args: seq<string>): (r: Option<(string, seq<string>)>)
    ensures r.None? <==> |args| == 0
    ensures r.Some? ==> [r.value.0] + r.value.1 == args
  {
    if |args| == 0 then None else Some((args[0], args[1..]))
  }
}
