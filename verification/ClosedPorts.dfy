/** The end-of-transmission check: no stream that a PL task closes, itself or through the tasks it invokes, may
    feed an AI Engine task. */
module ClosedPorts {
  import opened Wrappers
  import opened Graphs
  import opened Names

  /** Child port to the parent name bound to it; a constant binds the empty name. */
  type Args = map<string, string>

  datatype Endpoint = Endpoint(task: string, index: nat)
  datatype Stream = Stream(producedBy: Option<Endpoint>, consumedBy: Option<Endpoint>)

  datatype TaskModel = TaskModel(
    aie: bool, ports: set<string>, closedPorts: set<string>,
    instances: map<string, seq<Args>>, streams: map<string, Stream>)

  type Program = map<string, TaskModel>

  // ----- the property: chains of bindings

  datatype Link = Link(task: string, port: string)

  /** One argument of one instance binds `down.port` of a child to `up.port` of its parent. */
  predicate Binds(parent: TaskModel, args: Args, port: string, up: string, down: string) {
    && port in args && args[port] != ""
    && ArrayBaseName(port) == down && ArrayBaseName(args[port]) == up && up in parent.ports
  }

  ghost predicate InstanceFeeds(parent: TaskModel, args: Args, up: string, down: string) {
    exists port :: Binds(parent, args, port, up, down)
  }

  ghost predicate Feeds(p: Program, up: Link, down: Link) {
    && up.task in p && down.task in p && down.task in p[up.task].instances
    && exists i :: 0 <= i < |p[up.task].instances[down.task]|
                   && InstanceFeeds(p[up.task], p[up.task].instances[down.task][i], up.port, down.port)
  }

  /** `chain` leads through instance bindings to a task whose body closes the port at its end. */
  ghost predicate IsChain(p: Program, chain: seq<Link>) {
    && |chain| >= 1
    && (forall i :: 0 <= i < |chain| - 1 ==> Feeds(p, chain[i], chain[i + 1]))
    && var last := chain[|chain| - 1]; last.task in p && last.port in p[last.task].closedPorts
  }

  ghost predicate IsClosed(p: Program, at: Link) {
    exists chain :: IsChain(p, chain) && chain[0] == at
  }

  lemma ChainStarts(p: Program, task: string, port: string)
    requires task in p && port in p[task].closedPorts
    ensures IsClosed(p, Link(task, port))
  {
    assert IsChain(p, [Link(task, port)]);
  }

  lemma ChainExtends(p: Program, up: Link, down: Link)
    requires Feeds(p, up, down) && IsClosed(p, down)
    ensures IsClosed(p, up)
  {
    var chain :| IsChain(p, chain) && chain[0] == down;
    assert IsChain(p, [up] + chain);
  }

  /** Being closed unfolds one binding at a time. */
  lemma ClosedUnfolds(p: Program, up: Link) returns (down: Option<Link>)
    requires IsClosed(p, up)
    ensures up.task in p
    ensures down.None? ==> up.port in p[up.task].closedPorts
    ensures down.Some? ==> Feeds(p, up, down.value) && IsClosed(p, down.value)
  {
    var chain :| IsChain(p, chain) && chain[0] == up;
    if |chain| == 1 {
      return None;
    }
    assert Feeds(p, chain[0], chain[1]);
    assert IsChain(p, chain[1..]);
    return Some(chain[1]);
  }

  /** Task to the tasks it instantiates. */
  ghost function InstanceArcs(p: Program): Graph<string> {
    map t | t in p :: set c | c in p[t].instances && c in p
  }

  ghost predicate Acyclic(p: Program) {
    forall t :: t in p ==> AcyclicFrom(InstanceArcs(p), t)
  }

  class EotCheck {
    const program: Program
    var cache: map<string, set<string>>

    constructor (p: Program)
      ensures program == p && cache == map[]
    {
      program, cache := p, map[];
    }

    ghost predicate CacheInv()
      reads this
    {
      forall t :: t in cache ==> t in program && Exact(t, cache[t])
    }

    ghost predicate Exact(task: string, closed: set<string>) {
      forall port :: port in closed <==> IsClosed(program, Link(task, port))
    }

    /** The ports of `upper` that one instance of a child with closed ports `child` closes. */
    method CloseThrough(upper: TaskModel, args: Args, child: set<string>) returns (closed: set<string>)
      ensures forall up :: up in closed <==> exists down :: down in child && InstanceFeeds(upper, args, up, down)
    {
      closed := {};
      var todo := args.Keys;
      while todo != {}
        invariant todo <= args.Keys
        invariant forall up :: up in closed <==>
                    exists port, down :: port in args && port !in todo && down in child && Binds(upper, args, port, up, down)
      {
        var port :| port in todo;
        todo := todo - {port};
        var base := ArrayBaseName(port);
        if base in child && args[port] != "" {
          var up := ArrayBaseName(args[port]);
          if up in upper.ports {
            assert Binds(upper, args, port, up, base);
            closed := closed + {up};
          }
        }
      }
    }

    /** The closed ports of `task`, from the cache or by recursion over its instances. */
    method ClosedPortsOf(task: string) returns (closed: set<string>)
      requires task in program && Acyclic(program) && CacheInv()
      modifies `cache
      ensures CacheInv() && Exact(task, closed)
      decreases |Descendants(InstanceArcs(program), task)|, 1
    {
      if task in cache {
        return cache[task];
      }
      closed := program[task].closedPorts;
      ghost var direct := closed;
      forall port | port in closed
        ensures IsClosed(program, Link(task, port))
      {
        ChainStarts(program, task, port);
      }
      var todo := program[task].instances.Keys;
      while todo != {}
        invariant CacheInv() && todo <= program[task].instances.Keys && direct <= closed
        invariant forall port :: port in closed ==> IsClosed(program, Link(task, port))
        invariant forall port, down: Link ::
                    (down.task !in todo && Feeds(program, Link(task, port), down) && IsClosed(program, down)) ==>
                      port in closed
      {
        var child :| child in todo;
        todo := todo - {child};
        if child in program {
          var more := ClosedByChild(task, child);
          forall port | port in more
            ensures IsClosed(program, Link(task, port))
          {
            var down :| Feeds(program, Link(task, port), Link(child, down)) && IsClosed(program, Link(child, down));
            ChainExtends(program, Link(task, port), Link(child, down));
          }
          closed := closed + more;
        }
      }
      forall port | IsClosed(program, Link(task, port))
        ensures port in closed
      {
        var down := ClosedUnfolds(program, Link(task, port));
      }
      cache := cache[task := closed];
    }

    /** The ports of `task` closed through its instances of `child`. */
    method ClosedByChild(task: string, child: string) returns (closed: set<string>)
      requires task in program && child in program && child in program[task].instances
      requires Acyclic(program) && CacheInv()
      modifies `cache
      ensures CacheInv()
      ensures forall port :: port in closed <==>
                exists down :: Feeds(program, Link(task, port), Link(child, down)) && IsClosed(program, Link(child, down))
      decreases |Descendants(InstanceArcs(program), task)|, 0
    {
      closed := {};
      var instances := program[task].instances[child];
      assert child in Succ(InstanceArcs(program), task);
      AcyclicSucc(InstanceArcs(program), task, child);
      ReachesSelf(InstanceArcs(program), child);
      DescendantsShrink(InstanceArcs(program), task, child);
      for i := 0 to |instances|
        invariant CacheInv()
        invariant forall port :: port in closed <==>
                    exists j, down :: 0 <= j < i && InstanceFeeds(program[task], instances[j], port, down)
                                      && IsClosed(program, Link(child, down))
      {
        var childClosed := ClosedPortsOf(child);
        var more := CloseThrough(program[task], instances[i], childClosed);
        closed := closed + more;
      }
    }

    // ----- the check itself

    /** In `upper`, stream `fifo` carries an end-of-transmission token from a closing producer to the AI Engine. */
    ghost predicate Violates(upper: string, fifo: string) {
      && upper in program && fifo in program[upper].streams
      && var s := program[upper].streams[fifo];
      && s.producedBy.Some? && s.consumedBy.Some?
      && s.producedBy.value.task in program && s.consumedBy.value.task in program
      && program[s.consumedBy.value.task].aie
      && s.producedBy.value.task in program[upper].instances
      && var instances := program[upper].instances[s.producedBy.value.task];
      && s.producedBy.value.index < |instances|
      && var args := instances[s.producedBy.value.index];
      && exists port :: port in args && args[port] == fifo
                        && IsClosed(program, Link(s.producedBy.value.task, ArrayBaseName(port)))
    }

    method CheckStream(upper: string, fifo: string) returns (ok: bool)
      requires Acyclic(program) && CacheInv()
      requires upper in program && fifo in program[upper].streams
      modifies `cache
      ensures CacheInv()
      ensures ok <==> !Violates(upper, fifo)
    {
      var s := program[upper].streams[fifo];
      if s.producedBy.None? || s.consumedBy.None? {
        return true;
      }
      var producer, index := s.producedBy.value.task, s.producedBy.value.index;
      if producer !in program || s.consumedBy.value.task !in program || !program[s.consumedBy.value.task].aie {
        return true;
      }
      if producer !in program[upper].instances || index >= |program[upper].instances[producer]| {
        return true;
      }
      var args := program[upper].instances[producer][index];
      var todo := args.Keys;
      while todo != {}
        invariant CacheInv() && todo <= args.Keys
        invariant forall port :: port in args && port !in todo && args[port] == fifo ==>
                    !IsClosed(program, Link(producer, ArrayBaseName(port)))
      {
        var port :| port in todo;
        todo := todo - {port};
        if args[port] == fifo {
          var closed := ClosedPortsOf(producer);
          if ArrayBaseName(port) in closed {
            return false;
          }
        }
      }
      return true;
    }

    method CheckAieEot() returns (ok: bool)
      requires Acyclic(program) && CacheInv()
      modifies `cache
      ensures ok <==> forall upper, fifo :: !Violates(upper, fifo)
    {
      var uppers := program.Keys;
      while uppers != {}
        invariant CacheInv() && uppers <= program.Keys
        invariant forall upper, fifo :: upper !in uppers ==> !Violates(upper, fifo)
      {
        var upper :| upper in uppers;
        uppers := uppers - {upper};
        var fifos := program[upper].streams.Keys;
        while fifos != {}
          invariant CacheInv() && fifos <= program[upper].streams.Keys
          invariant forall fifo :: fifo !in fifos ==> !Violates(upper, fifo)
        {
          var fifo :| fifo in fifos;
          fifos := fifos - {fifo};
          var fine := CheckStream(upper, fifo);
          if !fine {
            return false;
          }
        }
      }
      return true;
    }
  }
}
