/** Two graphs on which the cycle marks and the wiring part ways. */
module AieWiringCases {
  import opened Wrappers
  import opened AieModel
  import opened AieFlatten
  import opened AieCycles
  import opened AieDerive
  import opened AieWiring

  function In(name: string): Port {
    Port(name, Istream, 32, None, false)
  }

  function Out(name: string): Port {
    Port(name, Ostream, 32, None, false)
  }

  function To(name: string, cat: Category): Arg {
    Arg(Name(name), cat)
  }

  function Only(args: map<string, Arg>): seq<Instance> {
    [Instance(args, 0)]
  }

  function Between(from: string, to: string): Fifo {
    Fifo(Some(2), Some(Endpoint(from, 0)), Some(Endpoint(to, 0)))
  }

  const U := Hop("U", 0)
  const K := Hop("K", 0)

  // ----- shape shared by both graphs

  /** The only AI Engine instance of the top is `u`, and nothing lies below the children of `u`. */
  ghost predicate TwoLevels(g: TaskGraph, u: Hop) {
    && (forall h :: Descends(g, [], h) <==> h == u)
    && (forall h, k :: Descends(g, [u], h) ==> !Descends(g, [u, h], k))
  }

  lemma PathOne(g: TaskGraph, h: Hop)
    ensures InstancePath(g, [h]) <==> Descends(g, [], h)
  {
    assert [h][..0] == [];
  }

  lemma PathTwo(g: TaskGraph, u: Hop, h: Hop)
    ensures InstancePath(g, [u, h]) <==> Descends(g, [], u) && Descends(g, [u], h)
  {
    assert [u, h][..1] == [u];
    PathOne(g, u);
  }

  lemma PathsOf(g: TaskGraph, u: Hop, p: Path)
    requires TwoLevels(g, u) && InstancePath(g, p) && p != []
    ensures p == [u] || (|p| == 2 && p == [u, p[1]] && Descends(g, [u], p[1]))
  {
    PrefixIsPath(g, p, 1);
    assert p[..1] == [p[0]];
    PathOne(g, p[0]);
    if |p| >= 2 {
      PrefixIsPath(g, p, 2);
      assert p[..2] == [u, p[1]];
      PathTwo(g, u, p[1]);
      if |p| >= 3 {
        ThirdHop(g, p);
      }
    }
  }

  lemma ThirdHop(g: TaskGraph, p: Path)
    requires InstancePath(g, p) && |p| >= 3
    ensures Descends(g, [p[0], p[1]], p[2])
  {
    PrefixIsPath(g, p, 3);
    var q := p[..3];
    assert q[..2] == [p[0], p[1]];
    assert Descends(g, q[..2], q[2]);
  }

  // ----- an arc that is no stream

  /** The top has the FIFOs q from A to B and r from U to A. U has a FIFO q of its own from V to K, where V does
      nothing with it, and passes the output of K on to r. */
  const STRAY := TaskGraph("T", map[
    "T" := Task(true, false, [], map["A" := Only(map["i" := To("r", Istream), "o" := To("q", Ostream)]),
                                     "B" := Only(map["i" := To("q", Istream)]),
                                     "U" := Only(map["o" := To("r", Ostream)])],
                map["q" := Between("A", "B"), "r" := Between("U", "A")]),
    "A" := Task(false, false, [In("i"), Out("o")], map[], map[]),
    "B" := Task(false, false, [In("i")], map[], map[]),
    "U" := Task(true, true, [Out("o")], map["V" := Only(map["w" := To("q", Ostream)]),
                                           "K" := Only(map["i" := To("q", Istream), "o" := To("o", Ostream)])],
                map["q" := Between("V", "K")]),
    "V" := Task(true, true, [Out("w")], map[], map[]),
    "K" := Task(false, true, [In("i"), Out("o")], map[], map[])])

  const V := Hop("V", 0)

  const STRAY_STREAMS := [AieStream([], "r", Plio(false)), AieStream([U], "q", Net)]

  const STRAY_KERNELS := [Kernel([U, K], "K", [Streams(true, false, [1]), Streams(false, false, [0])], true)]

  /** What the proofs below use of that graph. */
  ghost predicate StrayLike(g: TaskGraph) {
    && g.top == "T" && g.tasks.Keys == {"T", "A", "B", "U", "V", "K"}
    && !g.tasks["T"].aie && !g.tasks["A"].aie && !g.tasks["B"].aie
    && g.tasks["T"].children.Keys == {"A", "B", "U"} && g.tasks["T"].children["U"] == Only(map["o" := To("r", Ostream)])
    && g.tasks["T"].fifos == map["q" := Between("A", "B"), "r" := Between("U", "A")]
    && g.tasks["A"].children == map[] && g.tasks["B"].children == map[]
    && g.tasks["U"] == Task(true, true, [Out("o")],
                            map["V" := Only(map["w" := To("q", Ostream)]),
                                "K" := Only(map["i" := To("q", Istream), "o" := To("o", Ostream)])],
                            map["q" := Between("V", "K")])
    && g.tasks["V"] == Task(true, true, [Out("w")], map[], map[])
    && g.tasks["K"] == Task(false, true, [In("i"), Out("o")], map[], map[])
  }

  lemma StrayIsLike()
    ensures StrayLike(STRAY)
  {
  }

  lemma StrayPaths(g: TaskGraph)
    requires StrayLike(g)
    ensures TwoLevels(g, U) && Descends(g, [], U)
    ensures forall h :: Descends(g, [U], h) <==> h == V || h == K
    ensures InstancePath(g, [U]) && InstancePath(g, [U, V]) && InstancePath(g, [U, K])
  {
    assert TaskAt(g, [U]) == "U";
    forall h, k | h == V || h == K
      ensures !Descends(g, [U, h], k)
    {
      assert TaskAt(g, [U, h]) == h.task;
    }
    PathOne(g, U);
    PathTwo(g, U, V);
    PathTwo(g, U, K);
  }

  lemma StrayNames(g: TaskGraph)
    requires StrayLike(g)
    ensures InstancePath(g, [U]) && InstancePath(g, [U, V]) && InstancePath(g, [U, K])
    ensures InstanceAt(g, [U]) == Instance(map["o" := To("r", Ostream)], 0)
    ensures InstanceAt(g, [U, V]) == Instance(map["w" := To("q", Ostream)], 0)
    ensures InstanceAt(g, [U, K]) == Instance(map["i" := To("q", Istream), "o" := To("o", Ostream)], 0)
    ensures Resolve(g, [U], "o") == FifoAt([], "r") && Resolve(g, [U, V], "w") == FifoAt([U], "q")
    ensures Resolve(g, [U, K], "i") == FifoAt([U], "q") && Resolve(g, [U, K], "o") == FifoAt([], "r")
  {
    StrayPaths(g);
    assert [U][..0] == [] && [U, V][..1] == [U] && [U, K][..1] == [U];
  }

  lemma StrayKernelIsOk(g: TaskGraph)
    requires StrayLike(g)
    ensures KernelOk(g, STRAY_STREAMS, STRAY_KERNELS[0])
  {
    StrayNames(g);
    var k, ports := STRAY_KERNELS[0], g.tasks["K"].ports;
    assert Channels(In("i")) == ["i"] && Channels(Out("o")) == ["o"];
    assert PortWired(g, STRAY_STREAMS, k.path, ports[0], k.ports[0]);
    assert PortWired(g, STRAY_STREAMS, k.path, ports[1], k.ports[1]);
  }

  lemma StrayIsOk(g: TaskGraph)
    requires StrayLike(g)
    ensures PartitionOk(g, STRAY_KERNELS, STRAY_STREAMS) && Covered(g, STRAY_KERNELS, [])
  {
    StrayKernelIsOk(g);
    StrayPaths(g);
    forall p | IsLeaf(g, p)
      ensures HasKernel(STRAY_KERNELS, p)
    {
      PathsOf(g, U, p);
      assert STRAY_KERNELS[0].path == [U, K];
    }
  }

  /** V has the port w, at which the FIFO q of U arrives. */
  lemma StrayNetIsNamed(g: TaskGraph)
    requires StrayLike(g)
    ensures NetsNamed(g, g.tasks["U"]) && NetsNamed(g, g.tasks["V"])
  {
    var u, e := g.tasks["U"], Endpoint("V", 0);
    assert PortsPassed(u, e, "q") == {"w"};
    assert ChildPort(u, e, "q") == "w";
    assert PortOf(g.tasks["V"], "w") == Some(Out("w"));
    assert NetNamed(g, u, "q");
  }

  lemma StrayTasksAreOk(g: TaskGraph)
    requires StrayLike(g)
    ensures InstancePath(g, [U]) && InstancePath(g, [U, V]) && InstancePath(g, [U, K])
    ensures TaskOk(g, [U]) && TaskOk(g, [U, V]) && TaskOk(g, [U, K])
  {
    StrayNames(g);
    StrayNetIsNamed(g);
    assert TaskAt(g, [U]) == "U" && TaskAt(g, [U, V]) == "V" && TaskAt(g, [U, K]) == "K";
    assert Channels(In("i")) == ["i"] && Channels(Out("o")) == ["o"];
    var ports := g.tasks["K"].ports;
    assert PortOk(g, [U, K], ports[0]) && PortOk(g, [U, K], ports[1]);
  }

  lemma StrayCarries(g: TaskGraph)
    requires StrayLike(g)
    ensures FirstUsesCarry(g)
  {
    StrayNames(g);
    StrayPaths(g);
    assert PortOf(g.tasks["U"], "o") == Some(Out("o"));
  }

  lemma StrayCallsAreOk(g: TaskGraph)
    requires StrayLike(g)
    ensures InstancePath(g, [U]) && InstancePath(g, [U, V]) && InstancePath(g, [U, K])
    ensures CallOk(g, [U]) && CallOk(g, [U, V]) && CallOk(g, [U, K])
  {
    StrayNames(g);
  }

  lemma StraySubtreeIsOk(g: TaskGraph)
    requires StrayLike(g)
    ensures SubtreeOk(g, [])
  {
    StrayPaths(g);
    StrayTasksAreOk(g);
    StrayCallsAreOk(g);
    forall p | InstancePath(g, p) && p != []
      ensures TaskOk(g, p) && CallOk(g, p)
    {
      PathsOf(g, U, p);
    }
  }

  lemma StrayIsDerivable(g: TaskGraph)
    requires StrayLike(g)
    ensures Derivable(g)
  {
    StraySubtreeIsOk(g);
    StrayCarries(g);
  }

  lemma StrayUses(g: TaskGraph)
    requires StrayLike(g)
    ensures TopSourced(g, STRAY_STREAMS) && forall h :: Descends(g, [], h) ==> UsesListed(g, STRAY_STREAMS, h)
  {
    StrayNames(g);
    StrayPaths(g);
    assert TopUse(g, U, "o", "r");
    assert STRAY_STREAMS[0].fifo == "r";
  }

  /** The code takes K and A to feed each other. */
  lemma StrayMarks(g: TaskGraph)
    requires StrayLike(g)
    ensures OnStreamCycle(g, g.tasks["T"], STRAY_KERNELS, STRAY_STREAMS, 0)
  {
    var top, k, a := g.tasks["T"], KernelNode(0), PlNode("A", 0);
    var ports := STRAY_KERNELS[0].ports;
    assert PortJoins(ports[0], true, 1) && PortJoins(ports[1], false, 0);
    assert Joins(STRAY_KERNELS[0], true, 1) && Joins(STRAY_KERNELS[0], false, 0);
    assert !Joins(STRAY_KERNELS[0], false, 1) && !Joins(STRAY_KERNELS[0], true, 0);
    assert LastKernel(STRAY_KERNELS, 1, true, 1) == Some(k) && LastKernel(STRAY_KERNELS, 1, false, 0) == Some(k);
    assert LastKernel(STRAY_KERNELS, 1, true, 0) == LastKernel(STRAY_KERNELS, 0, true, 0) == None;
    assert LastKernel(STRAY_KERNELS, 1, false, 1) == LastKernel(STRAY_KERNELS, 0, false, 1) == None;
    assert StreamArc(g, top, STRAY_KERNELS, STRAY_STREAMS, 0, k, a);
    assert StreamArc(g, top, STRAY_KERNELS, STRAY_STREAMS, 1, a, k);
    assert IsWalk(g, top, STRAY_KERNELS, STRAY_STREAMS, [k, a, k]);
  }

  lemma {:induction false} WiresStayIn(g: TaskGraph, kernels: seq<Kernel>, walk: seq<Node>, trap: set<Node>, j: nat)
    requires IsWireWalk(g, kernels, walk) && 1 <= j < |walk| && walk[1] in trap
    requires forall a, b :: a in trap && Wire(g, kernels, a, b) ==> b in trap
    ensures walk[j] in trap
  {
    if j > 1 {
      WiresStayIn(g, kernels, walk, trap, j - 1);
      assert Wire(g, kernels, walk[j - 1], walk[j]);
    }
  }

  lemma StrayTouches(g: TaskGraph, input: bool, scope: Path, n: string)
    requires StrayLike(g)
    ensures Touches(g, [U, K], input, scope, n) <==>
            if input then scope == [U] && n == "q" else scope == [] && n == "r"
  {
    StrayNames(g);
    assert Channels(In("i")) == ["i"] && Channels(Out("o")) == ["o"];
    var ports := g.tasks["K"].ports;
    assert TaskAt(g, [U, K]) == "K";
    if input {
      assert PortTouches(g, [U, K], ports[0], input, [U], "q", 0);
    } else {
      assert PortTouches(g, [U, K], ports[1], input, [], "r", 0);
    }
  }

  lemma StrayWires(g: TaskGraph, a: Node, b: Node)
    requires StrayLike(g) && Wire(g, STRAY_KERNELS, a, b)
    ensures a == KernelNode(0) ==> b == PlNode("A", 0)
    ensures a == PlNode("A", 0) ==> b == PlNode("B", 0)
    ensures a != PlNode("B", 0)
  {
    var scope, n :| Via(g, STRAY_KERNELS, scope, n, a, b);
    StrayTouches(g, false, scope, n);
    StrayTouches(g, true, scope, n);
  }

  /** A partition in which a kernel is marked although no cycle of FIFOs runs through it. */
  lemma MarkedInVain()
    ensures IsPartition(STRAY, STRAY_KERNELS, STRAY_STREAMS)
    ensures STRAY_KERNELS[0].ordered && !OnWireCycle(STRAY, STRAY_KERNELS, 0)
  {
    var g := STRAY;
    StrayIsLike();
    StrayIsOk(g);
    StrayIsDerivable(g);
    StrayUses(g);
    StrayMarks(g);
    StrayHasNoCycle(g);
  }

  lemma StrayHasNoCycle(g: TaskGraph)
    requires StrayLike(g)
    ensures !OnWireCycle(g, STRAY_KERNELS, 0)
  {
    var trap := {PlNode("A", 0), PlNode("B", 0)};
    forall a, b | Wire(g, STRAY_KERNELS, a, b)
      ensures (a == KernelNode(0) ==> b in trap) && (a in trap ==> b in trap)
    {
      StrayWires(g, a, b);
    }
    forall walk | IsWireWalk(g, STRAY_KERNELS, walk) && walk[0] == KernelNode(0)
      ensures walk[|walk| - 1] != KernelNode(0)
    {
      assert Wire(g, STRAY_KERNELS, walk[0], walk[1]);
      WiresStayIn(g, STRAY_KERNELS, walk, trap, |walk| - 1);
    }
  }

  // ----- a cycle that is missed

  /** The top has the FIFOs f from A to U and r from U to A. U passes its input to both J and K, and the output of J on
      to r. */
  const SHARED := TaskGraph("T", map[
    "T" := Task(true, false, [], map["A" := Only(map["i" := To("r", Istream), "o" := To("f", Ostream)]),
                                     "U" := Only(map["i" := To("f", Istream), "o" := To("r", Ostream)])],
                map["f" := Between("A", "U"), "r" := Between("U", "A")]),
    "A" := Task(false, false, [In("i"), Out("o")], map[], map[]),
    "U" := Task(true, true, [In("i"), Out("o")], map["J" := Only(map["i" := To("i", Istream), "o" := To("o", Ostream)]),
                                                    "K" := Only(map["i" := To("i", Istream)])], map[]),
    "J" := Task(false, true, [In("i"), Out("o")], map[], map[]),
    "K" := Task(false, true, [In("i")], map[], map[])])

  const J := Hop("J", 0)

  const SHARED_STREAMS := [AieStream([], "f", Plio(true)), AieStream([], "r", Plio(false))]

  const SHARED_KERNELS := [Kernel([U, J], "J", [Streams(true, false, [0]), Streams(false, false, [1])], false),
                           Kernel([U, K], "K", [Streams(true, false, [0])], false)]

  ghost predicate SharedLike(g: TaskGraph) {
    && g.top == "T" && g.tasks.Keys == {"T", "A", "U", "J", "K"}
    && !g.tasks["T"].aie && !g.tasks["A"].aie
    && g.tasks["T"].children.Keys == {"A", "U"}
    && g.tasks["T"].children["U"] == Only(map["i" := To("f", Istream), "o" := To("r", Ostream)])
    && g.tasks["T"].fifos == map["f" := Between("A", "U"), "r" := Between("U", "A")]
    && g.tasks["A"].children == map[]
    && g.tasks["U"] == Task(true, true, [In("i"), Out("o")],
                            map["J" := Only(map["i" := To("i", Istream), "o" := To("o", Ostream)]),
                                "K" := Only(map["i" := To("i", Istream)])], map[])
    && g.tasks["J"] == Task(false, true, [In("i"), Out("o")], map[], map[])
    && g.tasks["K"] == Task(false, true, [In("i")], map[], map[])
  }

  lemma SharedIsLike()
    ensures SharedLike(SHARED)
  {
  }

  lemma SharedPaths(g: TaskGraph)
    requires SharedLike(g)
    ensures TwoLevels(g, U) && Descends(g, [], U)
    ensures forall h :: Descends(g, [U], h) <==> h == J || h == K
    ensures InstancePath(g, [U]) && InstancePath(g, [U, J]) && InstancePath(g, [U, K])
  {
    assert TaskAt(g, [U]) == "U";
    forall h, k | h == J || h == K
      ensures !Descends(g, [U, h], k)
    {
      assert TaskAt(g, [U, h]) == h.task;
    }
    PathOne(g, U);
    PathTwo(g, U, J);
    PathTwo(g, U, K);
  }

  lemma SharedNames(g: TaskGraph)
    requires SharedLike(g)
    ensures InstancePath(g, [U]) && InstancePath(g, [U, J]) && InstancePath(g, [U, K])
    ensures InstanceAt(g, [U]) == Instance(map["i" := To("f", Istream), "o" := To("r", Ostream)], 0)
    ensures InstanceAt(g, [U, J]) == Instance(map["i" := To("i", Istream), "o" := To("o", Ostream)], 0)
    ensures InstanceAt(g, [U, K]) == Instance(map["i" := To("i", Istream)], 0)
    ensures Resolve(g, [U], "i") == FifoAt([], "f") && Resolve(g, [U], "o") == FifoAt([], "r")
    ensures Resolve(g, [U, J], "i") == FifoAt([], "f") && Resolve(g, [U, J], "o") == FifoAt([], "r")
    ensures Resolve(g, [U, K], "i") == FifoAt([], "f")
  {
    SharedPaths(g);
    assert [U][..0] == [] && [U, J][..1] == [U] && [U, K][..1] == [U];
  }

  lemma SharedKernelsAreOk(g: TaskGraph)
    requires SharedLike(g)
    ensures KernelOk(g, SHARED_STREAMS, SHARED_KERNELS[0]) && KernelOk(g, SHARED_STREAMS, SHARED_KERNELS[1])
  {
    SharedNames(g);
    var j, k := SHARED_KERNELS[0], SHARED_KERNELS[1];
    assert Channels(In("i")) == ["i"] && Channels(Out("o")) == ["o"];
    assert PortWired(g, SHARED_STREAMS, j.path, g.tasks["J"].ports[0], j.ports[0]);
    assert PortWired(g, SHARED_STREAMS, j.path, g.tasks["J"].ports[1], j.ports[1]);
    assert PortWired(g, SHARED_STREAMS, k.path, g.tasks["K"].ports[0], k.ports[0]);
  }

  lemma SharedIsOk(g: TaskGraph)
    requires SharedLike(g)
    ensures PartitionOk(g, SHARED_KERNELS, SHARED_STREAMS) && Covered(g, SHARED_KERNELS, [])
  {
    SharedKernelsAreOk(g);
    SharedPaths(g);
    forall p | IsLeaf(g, p)
      ensures HasKernel(SHARED_KERNELS, p)
    {
      PathsOf(g, U, p);
      assert SHARED_KERNELS[0].path == [U, J] && SHARED_KERNELS[1].path == [U, K];
    }
  }

  lemma SharedTasksAreOk(g: TaskGraph)
    requires SharedLike(g)
    ensures InstancePath(g, [U]) && InstancePath(g, [U, J]) && InstancePath(g, [U, K])
    ensures TaskOk(g, [U]) && TaskOk(g, [U, J]) && TaskOk(g, [U, K])
  {
    SharedNames(g);
    assert TaskAt(g, [U]) == "U" && TaskAt(g, [U, J]) == "J" && TaskAt(g, [U, K]) == "K";
    assert Channels(In("i")) == ["i"] && Channels(Out("o")) == ["o"];
    var j, k := g.tasks["J"].ports, g.tasks["K"].ports;
    assert PortOk(g, [U, J], j[0]) && PortOk(g, [U, J], j[1]) && PortOk(g, [U, K], k[0]);
  }

  lemma SharedCarries(g: TaskGraph)
    requires SharedLike(g)
    ensures FirstUsesCarry(g)
  {
    SharedNames(g);
    SharedPaths(g);
    assert PortOf(g.tasks["U"], "i") == Some(In("i")) && PortOf(g.tasks["U"], "o") == Some(Out("o"));
  }

  lemma SharedCallsAreOk(g: TaskGraph)
    requires SharedLike(g)
    ensures InstancePath(g, [U]) && InstancePath(g, [U, J]) && InstancePath(g, [U, K])
    ensures CallOk(g, [U]) && CallOk(g, [U, J]) && CallOk(g, [U, K])
  {
    SharedNames(g);
  }

  lemma SharedSubtreeIsOk(g: TaskGraph)
    requires SharedLike(g)
    ensures SubtreeOk(g, [])
  {
    SharedPaths(g);
    SharedTasksAreOk(g);
    SharedCallsAreOk(g);
    forall p | InstancePath(g, p) && p != []
      ensures TaskOk(g, p) && CallOk(g, p)
    {
      PathsOf(g, U, p);
    }
  }

  lemma SharedIsDerivable(g: TaskGraph)
    requires SharedLike(g)
    ensures Derivable(g)
  {
    SharedSubtreeIsOk(g);
    SharedCarries(g);
  }

  lemma SharedUses(g: TaskGraph)
    requires SharedLike(g)
    ensures TopSourced(g, SHARED_STREAMS) && forall h :: Descends(g, [], h) ==> UsesListed(g, SHARED_STREAMS, h)
  {
    SharedNames(g);
    SharedPaths(g);
    assert TopUse(g, U, "i", "f") && TopUse(g, U, "o", "r");
    assert SHARED_STREAMS[0].fifo == "f" && SHARED_STREAMS[1].fifo == "r";
  }

  lemma SharedEnds()
    ensures LastKernel(SHARED_KERNELS, 2, true, 0) == Some(KernelNode(1)) && LastKernel(SHARED_KERNELS, 2, false, 0) == None
    ensures LastKernel(SHARED_KERNELS, 2, false, 1) == Some(KernelNode(0)) && LastKernel(SHARED_KERNELS, 2, true, 1) == None
  {
    var j, k := SHARED_KERNELS[0], SHARED_KERNELS[1];
    assert PortJoins(j.ports[0], true, 0) && PortJoins(j.ports[1], false, 1) && PortJoins(k.ports[0], true, 0);
    assert Joins(k, true, 0) && !Joins(k, false, 0) && !Joins(k, true, 1) && !Joins(k, false, 1);
    assert !Joins(j, false, 0) && !Joins(j, true, 1) && Joins(j, false, 1);
    assert LastKernel(SHARED_KERNELS, 1, false, 1) == Some(KernelNode(0));
    assert LastKernel(SHARED_KERNELS, 1, false, 0) == LastKernel(SHARED_KERNELS, 0, false, 0) == None;
    assert LastKernel(SHARED_KERNELS, 1, true, 1) == LastKernel(SHARED_KERNELS, 0, true, 1) == None;
  }

  lemma SharedFeeds(g: TaskGraph, a: Node, b: Node)
    requires SharedLike(g) && Feeds(g, g.tasks["T"], SHARED_KERNELS, SHARED_STREAMS, a, b)
    ensures (a == KernelNode(0) && b == PlNode("A", 0)) || (a == PlNode("A", 0) && b == KernelNode(1))
  {
    SharedEnds();
    var top := g.tasks["T"];
    if s :| 0 <= s < |SHARED_STREAMS| && StreamArc(g, top, SHARED_KERNELS, SHARED_STREAMS, s, a, b) {
      assert s == 0 || s == 1;
    }
  }

  /** The code sees no way back to J or K. */
  lemma SharedMarksNone(g: TaskGraph, i: nat)
    requires SharedLike(g)
    ensures !OnStreamCycle(g, g.tasks["T"], SHARED_KERNELS, SHARED_STREAMS, i)
  {
    var top := g.tasks["T"];
    forall walk | IsWalk(g, top, SHARED_KERNELS, SHARED_STREAMS, walk)
      ensures walk[0] != KernelNode(i) || walk[|walk| - 1] != KernelNode(i)
    {
      var n := |walk| - 1;
      assert Feeds(g, top, SHARED_KERNELS, SHARED_STREAMS, walk[0], walk[0 + 1]);
      SharedFeeds(g, walk[0], walk[1]);
      assert Feeds(g, top, SHARED_KERNELS, SHARED_STREAMS, walk[n - 1], walk[n - 1 + 1]);
      SharedFeeds(g, walk[n - 1], walk[n]);
    }
  }

  lemma SharedTouches(g: TaskGraph)
    requires SharedLike(g)
    ensures Touches(g, [U, J], true, [], "f") && Touches(g, [U, J], false, [], "r")
  {
    SharedNames(g);
    var ports := g.tasks["J"].ports;
    assert Channels(In("i")) == ["i"] && Channels(Out("o")) == ["o"];
    assert TaskAt(g, [U, J]) == "J";
    assert PortTouches(g, [U, J], ports[0], true, [], "f", 0) && PortTouches(g, [U, J], ports[1], false, [], "r", 0);
  }

  /** A real cycle: J feeds A over r, and A feeds J over f. */
  lemma SharedHasCycle(g: TaskGraph)
    requires SharedLike(g)
    ensures OnWireCycle(g, SHARED_KERNELS, 0)
  {
    SharedTouches(g);
    var j, a := KernelNode(0), PlNode("A", 0);
    assert Via(g, SHARED_KERNELS, [], "r", j, a) && Via(g, SHARED_KERNELS, [], "f", a, j);
    assert IsWireWalk(g, SHARED_KERNELS, [j, a, j]);
  }

  /** A partition in which a kernel is not marked although a cycle of FIFOs runs through it. */
  lemma MissedCycle()
    ensures IsPartition(SHARED, SHARED_KERNELS, SHARED_STREAMS)
    ensures !SHARED_KERNELS[0].ordered && OnWireCycle(SHARED, SHARED_KERNELS, 0)
  {
    var g := SHARED;
    SharedIsLike();
    SharedIsOk(g);
    SharedIsDerivable(g);
    SharedUses(g);
    SharedMarksNone(g, 0);
    SharedMarksNone(g, 1);
    SharedHasCycle(g);
  }
}
