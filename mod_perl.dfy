/** Starting the embedded Perl and handing interpreters to virtual hosts
    (modperl_startup, modperl_init, modperl_init_clones), and the two
    response handlers, "modperl" and "perl-script"
    (modperl_response_handler, modperl_response_handler_cgi). */
module ModPerlMain {
  import opened Wrappers
  import opened PerlRuntime
  import opened ModPerlTypes

  const OK := 0
  const DECLINED := -1

  // ---------------------------------------------------------------------
  // The process: interpreters built so far and what was done to them.

  /** What happens to an interpreter at startup, in order. */
  datatype Event =
    | Constructed(server: string, perl: PerlId)    // perl_alloc, perl_construct, perl_parse, perl_run
    | ModulesApplied(server: string, perl: PerlId) // modperl_config_apply_PerlModule
    | RequiresApplied(server: string, perl: PerlId) // modperl_config_apply_PerlRequire

  /** The outcomes of the steps that belong to Perl and to the config code
      outside these files: whether perl_alloc succeeds, whether perl_parse
      accepts the PerlSwitches, and whether loading a server's PerlModule
      and PerlRequire lists into an interpreter succeeds. */
  datatype Runtime = Runtime(
    allocOk: bool,
    parseOk: (PerlId, seq<string>) -> bool,
    modulesOk: (PerlId, seq<string>) -> bool,
    requiresOk: (PerlId, seq<string>) -> bool)

  /** A runtime in which every step succeeds. */
  ghost predicate AllOk(rt: Runtime) {
    rt.allocOk &&
    (forall perl, a :: rt.parseOk(perl, a)) &&
    (forall perl, a :: rt.modulesOk(perl, a)) &&
    (forall perl, a :: rt.requiresOk(perl, a))
  }

  /** The httpd process: its build (with or without ithreads), the Perl
      runtime, the startup events so far and the identity the next
      interpreter will get. */
  class Process {
    const rt: Runtime
    const ithreads: bool
    var events: seq<Event>
    var nextPerl: PerlId

    constructor (rt: Runtime, ithreads: bool)
      ensures this.rt == rt && this.ithreads == ithreads && events == [] && nextPerl == 0
    {
      this.rt := rt;
      this.ithreads := ithreads;
      events := [];
      nextPerl := 0;
    }
  }

  /** The step of modperl_startup that failed (each is logged, and the
      process exits). */
  datatype StartupFailure = AllocFailed | ParseFailed | ModulesFailed | RequiresFailed

  /** The events of one successful modperl_startup. */
  function StartupEvents(name: string, perl: PerlId): seq<Event> {
    [Constructed(name, perl), ModulesApplied(name, perl), RequiresApplied(name, perl)]
  }

  /** modperl_startup: a new interpreter for server `s`, parsed with its
      PerlSwitches, with its PerlModule list and then its PerlRequire list
      loaded.  A failing step ends the process (the Failure names it).  In
      a build without ithreads the interpreter is destroyed by a cleanup
      on `p`. */
  method Startup(proc: Process, s: ServerRec, p: Pool) returns (r: Result<PerlId, StartupFailure>)
    modifies proc, p
    ensures var rt := proc.rt;
      var perl := old(proc.nextPerl);
      (!rt.allocOk ==> r == Failure(AllocFailed)) &&
      (rt.allocOk && !rt.parseOk(perl, s.scfg.argv) ==> r == Failure(ParseFailed)) &&
      (rt.allocOk && rt.parseOk(perl, s.scfg.argv) && !rt.modulesOk(perl, s.scfg.perlModule) ==>
         r == Failure(ModulesFailed)) &&
      (rt.allocOk && rt.parseOk(perl, s.scfg.argv) && rt.modulesOk(perl, s.scfg.perlModule) ==>
         (!rt.requiresOk(perl, s.scfg.perlRequire) ==> r == Failure(RequiresFailed))) &&
      (r.Success? <==> rt.allocOk && rt.parseOk(perl, s.scfg.argv) &&
                       rt.modulesOk(perl, s.scfg.perlModule) && rt.requiresOk(perl, s.scfg.perlRequire))
    ensures r.Success? ==>
      r.value == old(proc.nextPerl) && proc.nextPerl == old(proc.nextPerl) + 1 &&
      proc.events == old(proc.events) + StartupEvents(s.name, r.value) &&
      p.cleanups == old(p.cleanups) + (if proc.ithreads then [] else [PerlShutdown(r.value)])
  {
    var scfg := s.scfg;
    if !proc.rt.allocOk {
      return Failure(AllocFailed);
    }
    var perl := proc.nextPerl;
    proc.nextPerl := proc.nextPerl + 1;
    if !proc.rt.parseOk(perl, scfg.argv) {
      return Failure(ParseFailed);
    }
    proc.events := proc.events + [Constructed(s.name, perl)];
    if !proc.rt.modulesOk(perl, scfg.perlModule) {
      return Failure(ModulesFailed);
    }
    proc.events := proc.events + [ModulesApplied(s.name, perl)];
    if !proc.rt.requiresOk(perl, scfg.perlRequire) {
      return Failure(RequiresFailed);
    }
    proc.events := proc.events + [RequiresApplied(s.name, perl)];
    if !proc.ithreads {
      p.Register(PerlShutdown(perl));
    }
    r := Success(perl);
  }

  // ---------------------------------------------------------------------
  // modperl_init.

  /** How modperl_init ends: done, skipped because the base server does
      not enable mod_perl, or the process exits, either because a threaded
      MPM runs a Perl built without ithreads or because an interpreter
      could not be started. */
  datatype InitResult =
    | InitDone
    | InitSkipped
    | ThreadedMpmWithoutIthreads
    | StartupExit(failure: StartupFailure)

  /** The events of one virtual host in modperl_init: a startup of its own
      when PARENT is set, then its PerlModule and PerlRequire lists loaded
      into the interpreter it uses. */
  function VhostEvents(name: string, parent: bool, perl: PerlId): seq<Event> {
    (if parent then StartupEvents(name, perl) else []) +
    [ModulesApplied(name, perl), RequiresApplied(name, perl)]
  }

  /** `parents` says which servers have PARENT set. */
  ghost predicate ParentsOf(servers: seq<ServerRec>, parents: seq<bool>)
    reads set k | 0 <= k < |servers| :: servers[k].scfg`flags
  {
    |parents| == |servers| && forall k :: 0 <= k < |servers| ==> parents[k] == servers[k].scfg.Parent()
  }

  /** The number of PARENT virtual hosts among the first n servers, the
      base server (index 0) not counted. */
  function ParentsUpTo(parents: seq<bool>, n: nat): nat
    requires n <= |parents|
  {
    if n <= 1 then 0
    else ParentsUpTo(parents, n - 1) + (if parents[n - 1] then 1 else 0)
  }

  /** The interpreter server k uses when the base server's is `first`:
      interpreters are numbered in the order they are started, and a
      virtual host without PARENT uses the base server's. */
  function PerlOf(parents: seq<bool>, first: PerlId, k: nat): PerlId
    requires k < |parents|
  {
    if k >= 1 && parents[k] then first + ParentsUpTo(parents, k + 1) else first
  }

  /** The events of the virtual hosts among the first n servers. */
  function InitEvents(servers: seq<ServerRec>, parents: seq<bool>, first: PerlId, n: nat): seq<Event>
    requires n <= |servers| == |parents|
  {
    if n <= 1 then []
    else InitEvents(servers, parents, first, n - 1) +
         VhostEvents(servers[n - 1].name, parents[n - 1], PerlOf(parents, first, n - 1))
  }

  /** The shutdown cleanups the PARENT virtual hosts among the first n
      servers register (none with ithreads). */
  function VhostShutdowns(ithreads: bool, parents: seq<bool>, first: PerlId, n: nat): seq<Cleanup>
    requires n <= |parents|
  {
    if n <= 1 || ithreads then []
    else VhostShutdowns(ithreads, parents, first, n - 1) +
         (if parents[n - 1] then [PerlShutdown(PerlOf(parents, first, n - 1))] else [])
  }

  lemma {:induction false} ParentsUpToMonotone(parents: seq<bool>, m: nat, n: nat)
    requires m <= n <= |parents|
    ensures ParentsUpTo(parents, m) <= ParentsUpTo(parents, n)
  {
    if m < n {
      ParentsUpToMonotone(parents, m, n - 1);
    }
  }

  /** Every PARENT virtual host runs on an interpreter of its own: one
      started after those of all servers before it, the base server's
      included. */
  lemma ParentGetsOwnPerl(parents: seq<bool>, first: PerlId, j: nat, k: nat)
    requires j < k < |parents| && parents[k]
    ensures PerlOf(parents, first, j) < PerlOf(parents, first, k)
  {
    ParentsUpToMonotone(parents, j + 1, k);
  }

  /** The number of interpreters constructed in `events`. */
  function Constructions(events: seq<Event>): nat {
    if events == [] then 0
    else (if events[0].Constructed? then 1 else 0) + Constructions(events[1..])
  }

  lemma {:induction false} ConstructionsAppend(a: seq<Event>, b: seq<Event>)
    ensures Constructions(a + b) == Constructions(a) + Constructions(b)
  {
    if a != [] {
      assert (a + b)[1..] == a[1..] + b;
      ConstructionsAppend(a[1..], b);
    } else {
      assert a + b == b;
    }
  }

  /** The virtual host loop of modperl_init constructs one interpreter per
      PARENT virtual host and no other. */
  lemma {:induction false} InitStartsOnePerParent(servers: seq<ServerRec>, parents: seq<bool>, first: PerlId, n: nat)
    requires n <= |servers| == |parents|
    ensures Constructions(InitEvents(servers, parents, first, n)) == ParentsUpTo(parents, n)
  {
    if n > 1 {
      var name := servers[n - 1].name;
      var perl := PerlOf(parents, first, n - 1);
      InitStartsOnePerParent(servers, parents, first, n - 1);
      ConstructionsAppend(InitEvents(servers, parents, first, n - 1), VhostEvents(name, parents[n - 1], perl));
      var tail := [ModulesApplied(name, perl), RequiresApplied(name, perl)];
      assert Constructions(tail) == 0 by {
        assert tail[1..] == [RequiresApplied(name, perl)] && tail[1..][1..] == [];
        assert Constructions(tail[1..]) == 0;
      }
      if parents[n - 1] {
        ConstructionsAppend(StartupEvents(name, perl), tail);
        assert StartupEvents(name, perl)[1..] == tail;
      } else {
        assert VhostEvents(name, false, perl) == tail;
      }
    }
  }

  /** A server list in which every server has its own config. */
  predicate OwnConfigs(servers: seq<ServerRec>) {
    forall i, j :: 0 <= i < j < |servers| ==> servers[i].scfg != servers[j].scfg
  }

  /** modperl_interp_init, whose code is not part of this model: a new
      interpreter pool for `s` whose parent wraps `perl`, with no idle
      interpreter yet. */
  method InterpInit(s: ServerRec, perl: PerlId)
    modifies s.scfg`mip
    ensures s.scfg.mip.Some? && fresh(s.scfg.mip.value) && fresh(s.scfg.mip.value.parent)
    ensures s.scfg.mip.value.parent.perl == perl && !s.scfg.mip.value.parent.isBase
    ensures s.scfg.mip.value.idle == []
  {
    var parent := new Interp(perl);
    var mip := new InterpPool(parent);
    s.scfg.mip := Some(mip);
  }

  /** The pool a virtual host ends up with in a threaded build: none when
      it is disabled; a new one around its interpreter when PARENT or
      CLONE is set, whose parent is marked BASE exactly for PARENT;
      otherwise the one it had, or else the base server's. */
  predicate MipAssigned(s: ServerRec, oldMip: Option<InterpPool>, baseMip: InterpPool, perl: PerlId)
    reads s.scfg`flags, s.scfg`mip, (if s.scfg.mip.Some? then {s.scfg.mip.value.parent} else {})`isBase
  {
    var scfg := s.scfg;
    (!scfg.Enabled() ==> scfg.mip == None) &&
    (scfg.Enabled() && (scfg.Parent() || scfg.Clone()) ==>
       scfg.mip.Some? && scfg.mip.value != baseMip && scfg.mip.value.parent.perl == perl &&
       (scfg.mip.value.parent.isBase <==> scfg.Parent())) &&
    (scfg.Enabled() && !scfg.Parent() && !scfg.Clone() ==>
       scfg.mip == (if oldMip.Some? then oldMip else Some(baseMip)))
  }

  /** Every step of modperl_startup for `s` succeeds when its interpreter
      is `perl`. */
  predicate StartupOk(rt: Runtime, s: ServerRec, perl: PerlId)
    reads s.scfg`argv, s.scfg`perlModule, s.scfg`perlRequire
  {
    rt.allocOk && rt.parseOk(perl, s.scfg.argv) &&
    rt.modulesOk(perl, s.scfg.perlModule) && rt.requiresOk(perl, s.scfg.perlRequire)
  }

  /** Virtual host `s`, using interpreter `perl`, gets through modperl_init's
      loop without an exit: its own startup succeeds when PARENT is set, and
      its PerlModule and PerlRequire lists load. */
  predicate VhostOk(rt: Runtime, s: ServerRec, perl: PerlId)
    reads s.scfg`flags, s.scfg`argv, s.scfg`perlModule, s.scfg`perlRequire
  {
    (s.scfg.Parent() ==> StartupOk(rt, s, perl)) &&
    rt.modulesOk(perl, s.scfg.perlModule) && rt.requiresOk(perl, s.scfg.perlRequire)
  }

  /** Every virtual host before servers[n] gets through modperl_init's loop,
      each on the interpreter PerlOf gives it. */
  ghost predicate VhostsOk(rt: Runtime, servers: seq<ServerRec>, parents: seq<bool>, first: PerlId, n: nat)
    reads (set k | 0 <= k < |servers| :: servers[k].scfg)`flags, (set k | 0 <= k < |servers| :: servers[k].scfg)`argv
    reads (set k | 0 <= k < |servers| :: servers[k].scfg)`perlModule
    reads (set k | 0 <= k < |servers| :: servers[k].scfg)`perlRequire
  {
    n <= |servers| == |parents| &&
    forall k :: 1 <= k < n ==> VhostOk(rt, servers[k], PerlOf(parents, first, k))
  }

  /** servers[j] is the first virtual host that does not get through
      modperl_init's loop: the one whose failure ends the process. */
  ghost predicate FirstFailingVhost(rt: Runtime, servers: seq<ServerRec>, parents: seq<bool>, first: PerlId, j: nat)
    reads (set k | 0 <= k < |servers| :: servers[k].scfg)`flags, (set k | 0 <= k < |servers| :: servers[k].scfg)`argv
    reads (set k | 0 <= k < |servers| :: servers[k].scfg)`perlModule
    reads (set k | 0 <= k < |servers| :: servers[k].scfg)`perlRequire
  {
    1 <= j < |servers| == |parents| && VhostsOk(rt, servers, parents, first, j) &&
    !VhostOk(rt, servers[j], PerlOf(parents, first, j))
  }

  lemma VhostsOkStep(rt: Runtime, servers: seq<ServerRec>, parents: seq<bool>, first: PerlId, i: nat)
    requires 1 <= i < |servers| && VhostsOk(rt, servers, parents, first, i)
    requires VhostOk(rt, servers[i], PerlOf(parents, first, i))
    ensures VhostsOk(rt, servers, parents, first, i + 1)
  {
  }

  lemma FirstFailingStopsAll(rt: Runtime, servers: seq<ServerRec>, parents: seq<bool>, first: PerlId, j: nat)
    requires FirstFailingVhost(rt, servers, parents, first, j)
    ensures !VhostsOk(rt, servers, parents, first, |servers|)
  {
    assert !VhostOk(rt, servers[j], PerlOf(parents, first, j));
  }

  /** The body of modperl_init's loop for one virtual host. */
  method InitVhost(proc: Process, s: ServerRec, p: Pool, basePerl: PerlId, baseMip: Option<InterpPool>)
    returns (r: Result<PerlId, StartupFailure>)
    requires proc.ithreads ==> baseMip.Some?
    modifies proc, p, s.scfg`mip
    ensures AllOk(proc.rt) ==> r.Success?
    ensures r.Success? <==> VhostOk(proc.rt, s, if s.scfg.Parent() then old(proc.nextPerl) else basePerl)
    ensures r.Success? ==>
      (s.scfg.Parent() ==> r.value == old(proc.nextPerl) && proc.nextPerl == old(proc.nextPerl) + 1) &&
      (!s.scfg.Parent() ==> r.value == basePerl && proc.nextPerl == old(proc.nextPerl)) &&
      proc.events == old(proc.events) + VhostEvents(s.name, s.scfg.Parent(), r.value) &&
      p.cleanups == old(p.cleanups) +
        (if !proc.ithreads && s.scfg.Parent() then [PerlShutdown(r.value)] else [])
    ensures r.Success? && !proc.ithreads ==> s.scfg.mip == old(s.scfg.mip)
    ensures r.Success? && proc.ithreads ==> MipAssigned(s, old(s.scfg.mip), baseMip.value, r.value)
  {
    var scfg := s.scfg;
    var perl := basePerl;
    if scfg.Parent() {
      var started := Startup(proc, s, p);
      if started.Failure? {
        return started;
      }
      perl := started.value;
    }
    if !proc.rt.modulesOk(perl, scfg.perlModule) {
      return Failure(ModulesFailed);
    }
    proc.events := proc.events + [ModulesApplied(s.name, perl)];
    if !proc.rt.requiresOk(perl, scfg.perlRequire) {
      return Failure(RequiresFailed);
    }
    proc.events := proc.events + [RequiresApplied(s.name, perl)];
    r := Success(perl);

    if proc.ithreads {
      if !scfg.Enabled() {
        scfg.mip := None;
        return;
      }
      if scfg.Parent() || scfg.Clone() {
        InterpInit(s, perl);
      }
      if scfg.Parent() {
        scfg.mip.value.parent.isBase := true;
      }
      if scfg.mip.None? {
        scfg.mip := baseMip;
      }
    }
  }

  /** What modperl_init's loop has done once it has handled the virtual
      hosts before servers[n]: the interpreters started, the events and
      cleanups added since `events0` and `cleanups0`, and the pools given
      (`oldMips` holds the pools the servers had before). */
  ghost predicate VhostsDone(proc: Process, servers: seq<ServerRec>, p: Pool, first: PerlId, baseMip: Option<InterpPool>,
                             parents: seq<bool>, oldMips: seq<Option<InterpPool>>, events0: seq<Event>,
                             cleanups0: seq<Cleanup>, n: nat)
    reads proc, p, set k | 0 <= k < |servers| :: servers[k].scfg
    reads set k | 0 <= k < |servers| && servers[k].scfg.mip.Some? :: servers[k].scfg.mip.value.parent
  {
    1 <= n <= |servers| && ParentsOf(servers, parents) && |oldMips| == |servers| &&
    (proc.ithreads ==> baseMip.Some?) &&
    proc.nextPerl == first + 1 + ParentsUpTo(parents, n) &&
    proc.events == events0 + InitEvents(servers, parents, first, n) &&
    p.cleanups == cleanups0 + VhostShutdowns(proc.ithreads, parents, first, n) &&
    (forall k :: 0 <= k < |servers| && (n <= k || !proc.ithreads) ==> servers[k].scfg.mip == oldMips[k]) &&
    (proc.ithreads ==> forall k :: 1 <= k < n ==>
      MipAssigned(servers[k], oldMips[k], baseMip.value, PerlOf(parents, first, k)))
  }

  /** One turn of modperl_init's loop: InitVhost for servers[i]. */
  method InitVhostAt(proc: Process, servers: seq<ServerRec>, i: nat, p: Pool, first: PerlId,
                     baseMip: Option<InterpPool>, ghost parents: seq<bool>, ghost oldMips: seq<Option<InterpPool>>,
                     ghost events0: seq<Event>, ghost cleanups0: seq<Cleanup>)
    returns (r: Result<PerlId, StartupFailure>)
    requires i < |servers| && OwnConfigs(servers)
    requires VhostsDone(proc, servers, p, first, baseMip, parents, oldMips, events0, cleanups0, i)
    modifies proc, p, servers[i].scfg`mip
    ensures AllOk(proc.rt) ==> r.Success?
    ensures r.Success? <==> VhostOk(proc.rt, servers[i], PerlOf(parents, first, i))
    ensures r.Success? ==> VhostsDone(proc, servers, p, first, baseMip, parents, oldMips, events0, cleanups0, i + 1)
  {
    assert servers[i].scfg.Parent() ==> old(proc.nextPerl) == PerlOf(parents, first, i);
    r := InitVhost(proc, servers[i], p, first, baseMip);
    if r.Success? {
      assert r.value == PerlOf(parents, first, i);
    }
  }

  /** InitVhostAt, with which virtual hosts have got through the loop. */
  method InitVhostStep(proc: Process, servers: seq<ServerRec>, i: nat, p: Pool, first: PerlId,
                       baseMip: Option<InterpPool>, ghost parents: seq<bool>, ghost oldMips: seq<Option<InterpPool>>,
                       ghost events0: seq<Event>, ghost cleanups0: seq<Cleanup>)
    returns (r: Result<PerlId, StartupFailure>)
    requires i < |servers| && OwnConfigs(servers)
    requires VhostsDone(proc, servers, p, first, baseMip, parents, oldMips, events0, cleanups0, i)
    requires VhostsOk(proc.rt, servers, parents, first, i)
    modifies proc, p, servers[i].scfg`mip
    ensures r.Success? ==> VhostsDone(proc, servers, p, first, baseMip, parents, oldMips, events0, cleanups0, i + 1)
    ensures r.Success? ==> VhostsOk(proc.rt, servers, parents, first, i + 1)
    ensures r.Failure? ==> FirstFailingVhost(proc.rt, servers, parents, first, i)
  {
    r := InitVhostAt(proc, servers, i, p, first, baseMip, parents, oldMips, events0, cleanups0);
    if r.Success? {
      VhostsOkStep(proc.rt, servers, parents, first, i);
    }
  }

  /** The loop of InitVhosts, stated through VhostsDone: either every
      virtual host got through, or `failed` is the one that did not. */
  method VhostLoop(proc: Process, servers: seq<ServerRec>, p: Pool, first: PerlId, baseMip: Option<InterpPool>,
                   ghost parents: seq<bool>, ghost oldMips: seq<Option<InterpPool>>)
    returns (err: Option<StartupFailure>, ghost failed: nat)
    requires OwnConfigs(servers)
    requires VhostsDone(proc, servers, p, first, baseMip, parents, oldMips, proc.events, p.cleanups, 1)
    modifies proc, p, set k | 1 <= k < |servers| :: servers[k].scfg`mip
    ensures err.None? ==>
      VhostsDone(proc, servers, p, first, baseMip, parents, oldMips, old(proc.events), old(p.cleanups), |servers|) &&
      VhostsOk(proc.rt, servers, parents, first, |servers|)
    ensures err.Some? ==> FirstFailingVhost(proc.rt, servers, parents, first, failed)
  {
    var i := 1;
    while i < |servers|
      invariant VhostsDone(proc, servers, p, first, baseMip, parents, oldMips, old(proc.events), old(p.cleanups), i)
      invariant VhostsOk(proc.rt, servers, parents, first, i)
    {
      var res := InitVhostStep(proc, servers, i, p, first, baseMip, parents, oldMips, old(proc.events), old(p.cleanups));
      if res.Failure? {
        return Some(res.error), i;
      }
      i := i + 1;
    }
    err, failed := None, 0;
  }

  /** modperl_init's loop over the virtual hosts (servers[1..]), given the
      base server's interpreter `first` and, with ithreads, its pool. */
  method InitVhosts(proc: Process, servers: seq<ServerRec>, p: Pool, first: PerlId, baseMip: Option<InterpPool>,
                    ghost parents: seq<bool>)
    returns (err: Option<StartupFailure>)
    requires |servers| >= 1 && OwnConfigs(servers) && proc.nextPerl == first + 1 && ParentsOf(servers, parents)
    requires proc.ithreads ==> baseMip.Some?
    modifies proc, p, set k | 1 <= k < |servers| :: servers[k].scfg`mip
    ensures AllOk(proc.rt) ==> err.None?
    ensures err.None? <==> VhostsOk(proc.rt, servers, parents, first, |servers|)
    ensures err.Some? ==> exists j :: FirstFailingVhost(proc.rt, servers, parents, first, j)
    ensures err.None? ==>
      proc.nextPerl == first + 1 + ParentsUpTo(parents, |servers|) &&
      proc.events == old(proc.events) + InitEvents(servers, parents, first, |servers|) &&
      p.cleanups == old(p.cleanups) + VhostShutdowns(proc.ithreads, parents, first, |servers|)
    ensures err.None? && !proc.ithreads ==>
      forall k :: 0 <= k < |servers| ==> servers[k].scfg.mip == old(servers[k].scfg.mip)
    ensures err.None? && proc.ithreads ==> forall k :: 1 <= k < |servers| ==>
      MipAssigned(servers[k], old(servers[k].scfg.mip), baseMip.value, PerlOf(parents, first, k))
  {
    ghost var oldMips := seq(|servers|, k requires 0 <= k < |servers| reads if 0 <= k < |servers| then {servers[k].scfg} else {} => servers[k].scfg.mip);
    ghost var failed;
    err, failed := VhostLoop(proc, servers, p, first, baseMip, parents, oldMips);
    if err.Some? {
      FirstFailingStopsAll(proc.rt, servers, parents, first, failed);
    }
  }

  /** modperl_init.  A build without ithreads under a threaded MPM ends the
      process, and a base server without mod_perl enabled stops here;
      neither creates an interpreter.  Otherwise the base server gets an
      interpreter (and, with ithreads, a pool whose parent is marked BASE),
      and each virtual host in turn uses it, or one of its own when PARENT
      is set, and has its PerlModule and PerlRequire lists loaded into it;
      with ithreads each virtual host is then given its pool. */
  method Init(proc: Process, servers: seq<ServerRec>, p: Pool, ghost parents: seq<bool>) returns (r: InitResult)
    requires |servers| >= 1 && OwnConfigs(servers) && ParentsOf(servers, parents)
    modifies proc, p, set k | 0 <= k < |servers| :: servers[k].scfg`mip
    ensures r == ThreadedMpmWithoutIthreads <==> !proc.ithreads && servers[0].scfg.threadedMpm
    ensures r == ThreadedMpmWithoutIthreads ==>
      proc.events == old(proc.events) && proc.nextPerl == old(proc.nextPerl) && p.cleanups == old(p.cleanups)
    ensures (proc.ithreads || !servers[0].scfg.threadedMpm) && !servers[0].scfg.Enabled() ==>
      r == InitSkipped && proc.events == old(proc.events) && proc.nextPerl == old(proc.nextPerl) &&
      p.cleanups == old(p.cleanups) &&
      forall k :: 0 <= k < |servers| ==> servers[k].scfg.mip == old(servers[k].scfg.mip)
    ensures AllOk(proc.rt) && (proc.ithreads || !servers[0].scfg.threadedMpm) && servers[0].scfg.Enabled() ==>
      r == InitDone
    ensures r == InitDone <==>
      (proc.ithreads || !servers[0].scfg.threadedMpm) && servers[0].scfg.Enabled() &&
      StartupOk(proc.rt, servers[0], old(proc.nextPerl)) &&
      VhostsOk(proc.rt, servers, parents, old(proc.nextPerl), |servers|)
    ensures r.StartupExit? <==>
      (proc.ithreads || !servers[0].scfg.threadedMpm) && servers[0].scfg.Enabled() &&
      !(StartupOk(proc.rt, servers[0], old(proc.nextPerl)) &&
        VhostsOk(proc.rt, servers, parents, old(proc.nextPerl), |servers|))
    ensures r == InitDone ==>
      var first := old(proc.nextPerl);
      proc.nextPerl == first + 1 + ParentsUpTo(parents, |servers|) &&
      proc.events == old(proc.events) + StartupEvents(servers[0].name, first) +
                     InitEvents(servers, parents, first, |servers|) &&
      p.cleanups == old(p.cleanups) + (if proc.ithreads then [] else [PerlShutdown(first)]) +
                    VhostShutdowns(proc.ithreads, parents, first, |servers|)
    ensures r == InitDone && !proc.ithreads ==>
      forall k :: 0 <= k < |servers| ==> servers[k].scfg.mip == old(servers[k].scfg.mip)
    ensures r == InitDone && proc.ithreads ==>
      var bm := servers[0].scfg.mip;
      bm.Some? && fresh(bm.value) && bm.value.parent.perl == old(proc.nextPerl) && bm.value.parent.isBase &&
      forall k :: 1 <= k < |servers| ==>
        MipAssigned(servers[k], old(servers[k].scfg.mip), bm.value, PerlOf(parents, old(proc.nextPerl), k))
  {
    var base := servers[0];
    var baseScfg := base.scfg;
    if !proc.ithreads && baseScfg.threadedMpm {
      return ThreadedMpmWithoutIthreads;
    }
    if !baseScfg.Enabled() {
      return InitSkipped;
    }
    var basePerl := Startup(proc, base, p);
    if basePerl.Failure? {
      return StartupExit(basePerl.error);
    }
    var first := basePerl.value;
    if proc.ithreads {
      InterpInit(base, first);
      baseScfg.mip.value.parent.isBase := true;
    }
    var err := InitVhosts(proc, servers, p, first, baseScfg.mip, parents);
    if err.Some? {
      return StartupExit(err.value);
    }
    r := InitDone;
  }

  /** A PARENT virtual host has its PerlModule list loaded twice into its
      own interpreter: once inside its startup and once more by the loop;
      any other virtual host once, into the base interpreter. */
  lemma VhostModulesLoads(name: string, parent: bool, perl: PerlId)
    ensures Count(VhostEvents(name, parent, perl), ModulesApplied(name, perl)) == if parent then 2 else 1
    ensures Count(VhostEvents(name, parent, perl), RequiresApplied(name, perl)) == if parent then 2 else 1
  {
    var e := VhostEvents(name, parent, perl);
    var m := ModulesApplied(name, perl);
    var q := RequiresApplied(name, perl);
    if parent {
      assert e == [Constructed(name, perl), m, q, m, q];
      assert e[1..] == [m, q, m, q] && e[2..] == [q, m, q] && e[3..] == [m, q] && e[4..] == [q] && e[5..] == [];
      assert Count(e[4..], m) == 0 && Count(e[4..], q) == 1;
      assert Count(e[3..], m) == 1 && Count(e[3..], q) == 1;
      assert Count(e[2..], m) == 1 && Count(e[2..], q) == 2;
      assert Count(e[1..], m) == 2 && Count(e[1..], q) == 2;
    } else {
      assert e == [m, q];
      assert e[1..] == [q] && e[2..] == [];
      assert Count(e[1..], m) == 0 && Count(e[1..], q) == 1;
    }
  }

  /** The number of occurrences of `x` in `s`. */
  function Count<T(==)>(s: seq<T>, x: T): nat {
    if s == [] then 0 else (if s[0] == x then 1 else 0) + Count(s[1..], x)
  }

  // ---------------------------------------------------------------------
  // modperl_init_clones.

  /** The pools of the first `n` servers that have one. */
  function PoolsBefore(servers: seq<ServerRec>, n: nat): set<InterpPool>
    reads set k | 0 <= k < |servers| :: servers[k].scfg
  {
    set k | 0 <= k < n && k < |servers| && servers[k].scfg.mip.Some? :: servers[k].scfg.mip.value
  }

  /** A pool after modperl_tipool_init has run on it if it was empty: it
      has an idle clone, and it was initialised exactly when it had none. */
  ghost predicate InitOnce(m: InterpPool, oldIdle: seq<Interp>, oldCalls: nat)
    reads m
  {
    m.idle != [] &&
    (oldIdle != [] ==> m.idle == oldIdle && m.initCalls == oldCalls) &&
    (oldIdle == [] ==> m.initCalls == oldCalls + 1)
  }

  /** The pools of the servers that have one. */
  function Pools(servers: seq<ServerRec>): set<InterpPool>
    reads set k | 0 <= k < |servers| :: servers[k].scfg
  {
    set k | 0 <= k < |servers| && servers[k].scfg.mip.Some? :: servers[k].scfg.mip.value
  }

  /** modperl_tipool_init, whose code is not part of this model: the pool
      is filled, so that its idle list is no longer empty. */
  method TipoolInit(mip: InterpPool)
    modifies mip
    ensures mip.idle != [] && mip.initCalls == old(mip.initCalls) + 1
  {
    var clone := new Interp(mip.parent.perl);
    mip.idle := mip.idle + [clone];
    mip.initCalls := mip.initCalls + 1;
  }

  /** How modperl_init_clones ends as written: normally, or dereferencing
      the NULL pool of the server at that index. */
  datatype ClonesOutcome = ClonesDone | NullMipAt(index: nat)

  /** The first server without a pool, if any. */
  function FirstWithoutPool(servers: seq<ServerRec>): (r: Option<nat>)
    reads set k | 0 <= k < |servers| :: servers[k].scfg
    ensures r.Some? ==> r.value < |servers| && servers[r.value].scfg.mip.None? &&
                        forall k :: 0 <= k < r.value ==> servers[k].scfg.mip.Some?
    ensures r.None? ==> forall k :: 0 <= k < |servers| ==> servers[k].scfg.mip.Some?
  {
    if servers == [] then None
    else if servers[0].scfg.mip.None? then Some(0)
    else
      var rest := FirstWithoutPool(servers[1..]);
      if rest.Some? then Some(rest.value + 1) else None
  }

  /** modperl_init_clones as written: under a threaded MPM it reads the
      idle list of every server's pool, and so dereferences NULL at the
      first server without one (a disabled virtual host, see
      modperl_init). */
  method InitClonesAsWritten(servers: seq<ServerRec>) returns (r: ClonesOutcome)
    requires |servers| >= 1
    modifies Pools(servers)
    ensures !servers[0].scfg.threadedMpm ==>
      r == ClonesDone &&
      forall m :: m in old(Pools(servers)) ==> m.idle == old(m.idle) && m.initCalls == old(m.initCalls)
    ensures servers[0].scfg.threadedMpm ==>
      r == (if FirstWithoutPool(servers).Some? then NullMipAt(FirstWithoutPool(servers).value) else ClonesDone)
    ensures servers[0].scfg.threadedMpm ==>
      var n := if FirstWithoutPool(servers).Some? then FirstWithoutPool(servers).value else |servers|;
      (forall m :: m in old(PoolsBefore(servers, n)) ==> InitOnce(m, old(m.idle), old(m.initCalls))) &&
      (forall m :: m in old(Pools(servers)) && m !in old(PoolsBefore(servers, n)) ==>
         m.idle == old(m.idle) && m.initCalls == old(m.initCalls))
  {
    if !servers[0].scfg.threadedMpm {
      return ClonesDone;
    }
    ghost var pools := Pools(servers);
    var i := 0;
    while i < |servers|
      invariant 0 <= i <= |servers|
      invariant forall k :: 0 <= k < i ==> servers[k].scfg.mip.Some?
      invariant forall m :: m in PoolsBefore(servers, i) ==> InitOnce(m, old(m.idle), old(m.initCalls))
      invariant forall m :: m in pools && m !in PoolsBefore(servers, i) ==>
        m.idle == old(m.idle) && m.initCalls == old(m.initCalls)
    {
      var mip := servers[i].scfg.mip;
      if mip.None? {
        return NullMipAt(i);
      }
      ghost var before := PoolsBefore(servers, i);
      if mip.value.idle == [] {
        assert mip.value !in before;
        TipoolInit(mip.value);
      }
      assert PoolsBefore(servers, i + 1) == before + {mip.value};
      forall m | m in PoolsBefore(servers, i + 1)
        ensures InitOnce(m, old(m.idle), old(m.initCalls))
      {
        if m != mip.value {
          assert m in before;
        }
      }
      i := i + 1;
    }
    r := ClonesDone;
  }

  /** modperl_init_clones as intended: under a threaded MPM every pool whose
      idle list is empty is initialised, once, whichever servers share it;
      servers without a pool are skipped; pools already filled are left
      alone.  Without a threaded MPM nothing happens. */
  method InitClones(servers: seq<ServerRec>)
    requires |servers| >= 1
    modifies Pools(servers)
    ensures !servers[0].scfg.threadedMpm ==>
      forall m :: m in old(Pools(servers)) ==> m.idle == old(m.idle) && m.initCalls == old(m.initCalls)
    ensures servers[0].scfg.threadedMpm ==>
      forall m :: m in old(Pools(servers)) ==>
        m.idle != [] &&
        (old(m.idle) != [] ==> m.idle == old(m.idle) && m.initCalls == old(m.initCalls)) &&
        (old(m.idle) == [] ==> m.initCalls == old(m.initCalls) + 1)
  {
    if !servers[0].scfg.threadedMpm {
      return;
    }
    ghost var pools := Pools(servers);
    var i := 0;
    while i < |servers|
      invariant 0 <= i <= |servers|
      invariant Pools(servers) == pools
      invariant forall k :: 0 <= k < i && servers[k].scfg.mip.Some? ==> servers[k].scfg.mip.value.idle != []
      invariant forall m :: m in pools ==>
        (m.idle == old(m.idle) && m.initCalls == old(m.initCalls)) ||
        (old(m.idle) == [] && m.idle != [] && m.initCalls == old(m.initCalls) + 1)
    {
      var mip := servers[i].scfg.mip;
      if mip.Some? && mip.value.idle == [] {
        TipoolInit(mip.value);
      }
      i := i + 1;
    }
  }

  /** A threaded build whose Perl never fails: a base server with mod_perl
      enabled and one virtual host configured with `PerlOptions -Enable`,
      neither with PARENT. */
  method DisabledVhostSetup() returns (proc: Process, servers: seq<ServerRec>, p: Pool)
    ensures proc.ithreads && AllOk(proc.rt)
    ensures |servers| == 2 && OwnConfigs(servers) && ParentsOf(servers, [false, false])
    ensures servers[0].scfg.threadedMpm && servers[0].scfg.Enabled() && !servers[1].scfg.Enabled()
    ensures fresh(proc) && fresh(p) && fresh(servers[0].scfg) && fresh(servers[1].scfg)
  {
    var rt := Runtime(true, (perl, a) => true, (perl, a) => true, (perl, a) => true);
    proc := new Process(rt, true);
    var pconf := new Pool();
    var basePools := new PoolCfg();
    var baseCfg := new SrvConfig(basePools);
    baseCfg.flags := Options({"Enable"});
    baseCfg.threadedMpm := true;
    var base := new ServerRec("localhost", pconf, baseCfg);
    var vhostPools := new PoolCfg();
    var vhostCfg := new SrvConfig(vhostPools);
    vhostCfg.flags := Options({});   // PerlOptions -Enable
    var vhost := new ServerRec("vhost", pconf, vhostCfg);
    p := new Pool();
    servers := [base, vhost];
  }

  /** After modperl_init in that build the base server has a pool and the
      virtual host none. */
  method InitWithDisabledVhost() returns (servers: seq<ServerRec>)
    ensures |servers| == 2 && servers[0].scfg.threadedMpm
    ensures servers[0].scfg.mip.Some? && servers[1].scfg.mip.None?
    ensures fresh(servers[0].scfg.mip.value)
  {
    var proc, p;
    proc, servers, p := DisabledVhostSetup();
    ghost var vhostMip := servers[1].scfg.mip;
    var res := Init(proc, servers, p, [false, false]);
    assert MipAssigned(servers[1], vhostMip, servers[0].scfg.mip.value, PerlOf([false, false], 0, 1));
  }

  /** modperl_init_clones as written, run after that modperl_init,
      dereferences the virtual host's missing pool. */
  method DisabledVhostCrashesClones() returns (r: ClonesOutcome)
    ensures r == NullMipAt(1)
  {
    var servers := InitWithDisabledVhost();
    r := InitClonesAsWritten(servers);
  }


  // ---------------------------------------------------------------------
  // The response handlers.

  /** What happens to a request inside the response handlers, in order. */
  datatype ResponseEvent =
    | Selected(interp: Interp)        // modperl_interp_select
    | ResponseInit                    // modperl_response_init: output buffer set up
    | HandlerRun(held: Option<Interp>) // modperl_callback_per_dir, with rcfg->interp at that time
    | Unselected(interp: Interp)      // modperl_interp_unselect
    | Flushed                         // modperl_response_finish

  /** The request record fields the handlers touch: r->handler,
      r->content_type, rcfg->interp, the header_parse flag of the output
      buffer, and the log of what happened. */
  class Request {
    var handler: string
    const contentType: Option<string>
    var interp: Option<Interp>
    var headerParse: bool
    var events: seq<ResponseEvent>

    constructor (handler: string, contentType: Option<string>)
      ensures this.handler == handler && this.contentType == contentType
      ensures interp == None && !headerParse && events == []
    {
      this.handler := handler;
      this.contentType := contentType;
      interp := None;
      headerParse := false;
      events := [];
    }
  }

  /** r->handler after a run whose callback returned `retval`: a DECLINED
      response hands the request to the handler named by its content type,
      when there is one. */
  function HandlerAfter(handler: string, contentType: Option<string>, retval: int): (h: string)
    ensures retval != DECLINED || contentType.None? ==> h == handler
    ensures retval == DECLINED && contentType.Some? ==> h == contentType.value
  {
    if retval == DECLINED && contentType.Some? then contentType.value else handler
  }

  /** modperl_response_handler_run: sets up the output buffer, runs the
      per-dir response handlers (whose status is `callback`), applies the
      DECLINED fallback and flushes only when `finish` is set. */
  method ResponseHandlerRun(r: Request, finish: bool, callback: int) returns (retval: int)
    modifies r`handler, r`events
    ensures retval == callback
    ensures r.handler == HandlerAfter(old(r.handler), r.contentType, callback)
    ensures r.events == old(r.events) + [ResponseInit, HandlerRun(r.interp)] + (if finish then [Flushed] else [])
  {
    r.events := r.events + [ResponseInit];
    r.events := r.events + [HandlerRun(r.interp)];
    retval := callback;
    if retval == DECLINED && r.contentType.Some? {
      r.handler := r.contentType.value;
    }
    if finish {
      r.events := r.events + [Flushed];
    }
  }

  /** modperl_response_handler: declines anything but the "modperl"
      handler, leaving the request alone; otherwise runs and flushes. */
  method ResponseHandler(r: Request, callback: int) returns (retval: int)
    modifies r`handler, r`events
    ensures old(r.handler) != "modperl" ==>
      retval == DECLINED && r.handler == old(r.handler) && r.events == old(r.events)
    ensures old(r.handler) == "modperl" ==>
      retval == callback && r.handler == HandlerAfter("modperl", r.contentType, callback) &&
      r.events == old(r.events) + [ResponseInit, HandlerRun(r.interp), Flushed]
  {
    if r.handler != "modperl" {
      return DECLINED;
    }
    retval := ResponseHandlerRun(r, true, callback);
  }

  /** modperl_response_handler_cgi: declines anything but "perl-script".
      With ithreads the interpreter `selected` is chosen first and, when it
      is to be put back after the handler (PUTBACK), held in rcfg->interp
      while the handler runs, then unselected and released.  Output is
      flushed exactly once, at the very end, after any putback. */
  method ResponseHandlerCgi(r: Request, callback: int, ithreads: bool, selected: Interp,
                            parseHeaders: bool)
    returns (retval: int)
    modifies r
    ensures old(r.handler) != "perl-script" ==>
      retval == DECLINED && r.handler == old(r.handler) && r.events == old(r.events) &&
      r.interp == old(r.interp) && r.headerParse == old(r.headerParse)
    ensures old(r.handler) == "perl-script" ==>
      retval == callback && r.handler == HandlerAfter("perl-script", r.contentType, callback) &&
      r.headerParse == (old(r.headerParse) || parseHeaders)
    ensures old(r.handler) == "perl-script" && ithreads && selected.putback ==>
      r.interp == None &&
      r.events == old(r.events) + [Selected(selected), ResponseInit, HandlerRun(Some(selected)),
                                   Unselected(selected), Flushed]
    ensures old(r.handler) == "perl-script" && ithreads && !selected.putback ==>
      r.interp == old(r.interp) &&
      r.events == old(r.events) + [Selected(selected), ResponseInit, HandlerRun(old(r.interp)), Flushed]
    ensures old(r.handler) == "perl-script" && !ithreads ==>
      r.interp == old(r.interp) &&
      r.events == old(r.events) + [ResponseInit, HandlerRun(old(r.interp)), Flushed]
  {
    if r.handler != "perl-script" {
      return DECLINED;
    }
    if ithreads {
      r.events := r.events + [Selected(selected)];
      if selected.putback {
        r.interp := Some(selected);
      }
    }
    if parseHeaders {
      r.headerParse := true;
    }
    retval := ResponseHandlerRun(r, false, callback);
    if ithreads && selected.putback {
      r.events := r.events + [Unselected(selected)];
      r.interp := None;
    }
    r.events := r.events + [Flushed];
  }

  /** In the "perl-script" run with a PUTBACK interpreter, the flush comes
      once and last, after the interpreter is unselected, and the handler
      ran while rcfg->interp held it. */
  lemma CgiPutbackOrder(before: seq<ResponseEvent>, after: seq<ResponseEvent>, selected: Interp)
    requires after == before + [Selected(selected), ResponseInit, HandlerRun(Some(selected)),
                                Unselected(selected), Flushed]
    ensures var e := after[|before|..];
      Count(e, Flushed) == 1 && after[|after| - 1] == Flushed && after[|after| - 2] == Unselected(selected) &&
      Count(e, HandlerRun(Some(selected))) == 1
  {
    var e := after[|before|..];
    assert e == [Selected(selected), ResponseInit, HandlerRun(Some(selected)), Unselected(selected), Flushed];
    assert e[1..] == [ResponseInit, HandlerRun(Some(selected)), Unselected(selected), Flushed];
    assert e[2..] == [HandlerRun(Some(selected)), Unselected(selected), Flushed];
    assert e[3..] == [Unselected(selected), Flushed];
    assert e[4..] == [Flushed];
    assert e[5..] == [];
    var h := HandlerRun(Some(selected));
    assert Count(e[4..], Flushed) == 1 && Count(e[4..], h) == 0;
    assert Count(e[3..], Flushed) == 1 && Count(e[3..], h) == 0;
    assert Count(e[2..], Flushed) == 1 && Count(e[2..], h) == 1;
    assert Count(e[1..], Flushed) == 1 && Count(e[1..], h) == 1;
  }
}
