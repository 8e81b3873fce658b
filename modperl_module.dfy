/** Apache modules written in Perl (modperl_module.c).
    A Perl package that defines @APACHE_MODULE_COMMANDS becomes an Apache
    module: its directives are dispatched into Perl methods, and each of
    Apache's native per-dir and per-server config records for that module
    (a modperl_module_cfg_t) is paired, through a per-interpreter pointer
    table, with a Perl object created by DIR_CREATE/SERVER_CREATE and
    combined by DIR_MERGE/SERVER_MERGE. */
module ModPerlModule {
  import opened Wrappers
  import opened PerlRuntime
  import opened PerlInterpreters
  import opened ModPerlTypes

  // ---------------------------------------------------------------------
  // Apache constants the classification and defaults use (http_config.h:
  // enum cmd_how, OR_ALL, DECLINE_CMD).

  const RAW_ARGS: int := 0
  const TAKE1: int := 1
  const TAKE2: int := 2
  const ITERATE: int := 3
  const ITERATE2: int := 4
  const FLAG: int := 5
  const NO_ARGS: int := 6
  const TAKE12: int := 7
  const TAKE3: int := 8
  const TAKE23: int := 9
  const TAKE123: int := 10
  const TAKE13: int := 11

  /** OR_LIMIT|OR_OPTIONS|OR_FILEINFO|OR_AUTHCFG|OR_INDEXES */
  const OR_ALL: int := 31

  const DECLINE_CMD: string := "\U{7}\U{8}"

  // ---------------------------------------------------------------------
  // The table's home: $PL_modglobal{"ModPerl::Module::ConfigTable"}.

  /** The interpreter's PL_modglobal slot for the table: absent, present
      but not holding an integer (Some(None)), or holding a table. */
  class ModGlobal {
    var slot: Option<Option<PtrTable>>

    constructor ()
      ensures slot == None
    {
      slot := None;
    }
  }

  /** modperl_module_config_table_set */
  method ConfigTableSet(g: ModGlobal, table: PtrTable)
    modifies g
    ensures g.slot == Some(Some(table))
  {
    g.slot := Some(Some(table));
  }

  /** modperl_module_config_table_get: with `create` the slot is created if
      needed and always ends up holding the returned table, which is the
      one already there if there was one; without `create` nothing changes
      and only a table already stored is returned. */
  method ConfigTableGet(g: ModGlobal, create: bool) returns (t: Option<PtrTable>)
    modifies g
    ensures create ==> t.Some? && g.slot == Some(t)
    ensures create && old(g.slot).Some? && old(g.slot).value.Some? ==> t == old(g.slot).value
    ensures create && !(old(g.slot).Some? && old(g.slot).value.Some?) ==> fresh(t.value)
    ensures !create ==> g.slot == old(g.slot)
    ensures !create ==> t == (if old(g.slot).Some? then old(g.slot).value else None)
  {
    if g.slot.None? {
      if !create {
        return None;
      }
      g.slot := Some(None);   // hv_fetch with lval creates an undef entry
    }
    var sv := g.slot.value;
    if sv.None? && create {
      var table := new PtrTable();
      g.slot := Some(Some(table));
      t := Some(table);
    } else {
      t := sv;                // SvIV of an undef entry is 0, i.e. NULL
    }
  }

  // ---------------------------------------------------------------------
  // Cleanups that evict request-time entries from the table.

  /** modperl_module_config_obj_cleanup: delete exactly the registered key. */
  method ConfigObjCleanupRun(table: PtrTable, key: CfgRec)
    modifies table
    ensures table.entries == old(table.entries) - {key}
  {
    table.Delete(key);
  }

  /** modperl_module_config_obj_cleanup_register */
  method ConfigObjCleanupRegister(p: Pool, table: PtrTable, key: CfgRec)
    modifies p
    ensures p.cleanups == old(p.cleanups) + [ConfigObjCleanup(table, key)]
  {
    p.Register(ConfigObjCleanup(table, key));
  }

  ghost function TablesOf(cs: seq<Cleanup>): set<PtrTable> {
    set k | 0 <= k < |cs| && cs[k].ConfigObjCleanup? :: cs[k].table
  }

  /** The keys that the cleanups in `cs` evict from `t`. */
  ghost function KeysFor(cs: seq<Cleanup>, t: PtrTable): set<CfgRec> {
    set k | 0 <= k < |cs| && cs[k].ConfigObjCleanup? && cs[k].table == t :: cs[k].key
  }

  /** Releasing a pool (apr_pool_destroy) runs its cleanups, last registered
      first; for the table, each config-object cleanup removes its key and
      nothing else.  Other kinds of cleanup (module removal, interpreter
      shutdown) have no effect on the table. */
  method ReleasePool(p: Pool)
    modifies p, TablesOf(p.cleanups)
    ensures p.cleanups == []
    ensures forall t :: t in TablesOf(old(p.cleanups)) ==>
      t.entries == old(t.entries) - KeysFor(old(p.cleanups), t)
  {
    ghost var cs := p.cleanups;
    var i := |p.cleanups|;
    while i > 0
      invariant 0 <= i <= |cs| && p.cleanups == cs
      invariant forall t :: t in TablesOf(cs) ==> t.entries == old(t.entries) - KeysFor(cs[i..], t)
    {
      i := i - 1;
      var c := p.cleanups[i];
      if c.ConfigObjCleanup? {
        assert c.table in TablesOf(cs);
        ConfigObjCleanupRun(c.table, c.key);
      }
      forall t | t in TablesOf(cs)
        ensures KeysFor(cs[i..], t) == KeysFor(cs[i + 1..], t) + (if c.ConfigObjCleanup? && c.table == t then {c.key} else {})
      {
        KeysForCons(cs[i..], t);
        assert cs[i..][1..] == cs[i + 1..];
      }
    }
    p.cleanups := [];
  }

  lemma KeysForCons(cs: seq<Cleanup>, t: PtrTable)
    requires cs != []
    ensures KeysFor(cs, t) == KeysFor(cs[1..], t) +
      (if cs[0].ConfigObjCleanup? && cs[0].table == t then {cs[0].key} else {})
  {
    var rhs := KeysFor(cs[1..], t) + (if cs[0].ConfigObjCleanup? && cs[0].table == t then {cs[0].key} else {});
    forall x | x in KeysFor(cs, t) ensures x in rhs {
      var k :| 0 <= k < |cs| && cs[k].ConfigObjCleanup? && cs[k].table == t && cs[k].key == x;
      if k > 0 {
        assert cs[1..][k - 1] == cs[k];
      }
    }
    forall x | x in rhs ensures x in KeysFor(cs, t) {
      if x in KeysFor(cs[1..], t) {
        var k :| 0 <= k < |cs[1..]| && cs[1..][k].ConfigObjCleanup? && cs[1..][k].table == t && cs[1..][k].key == x;
        assert cs[k + 1] == cs[1..][k];
      }
    }
  }

  // ---------------------------------------------------------------------
  // Creating the Perl object for a config record (get_obj).

  /** newSVpv(mname, minfo->namelen): the first `namelen` characters. */
  function ModuleNameSv(name: string, namelen: nat): Sv {
    StrSv(if namelen <= |name| then name[..namelen] else name)
  }

  /** The arguments of a DIR_CREATE / SERVER_CREATE call: the class name and
      the blessed cmd_parms. */
  function CreateArgs(modName: string, namelen: nat, parms: CmdParms): seq<Sv> {
    [ModuleNameSv(modName, namelen), parms.Blessed()]
  }

  /** What the create step of get_obj produces for a record that has no
      object yet: when the create method resolves, the value it returned
      (NULL unless exactly one value came back) or, if it died, its $@; when
      there is no create method, a new empty hash blessed into the module's
      package, at the fresh address `addr`. */
  function CreateObj(perl: Perl, meth: Option<string>, modName: string, namelen: nat,
                     parms: CmdParms, addr: nat): (r: Result<Sv, string>)
    ensures (meth.None? || !perl.resolves(meth.value)) ==> r == Success(ObjectRef(modName, addr))
    ensures meth.Some? && perl.resolves(meth.value) ==>
      var o := perl.callSub(meth.value, CreateArgs(modName, namelen, parms));
      (r.Failure? <==> o.errsv.Some?) &&
      (r.Failure? ==> r.error == o.errsv.value) &&
      (r.Success? ==> r.value == (if o.count == 1 then o.top else Null))
  {
    if meth.Some? && perl.resolves(meth.value) then
      var o := perl.callSub(meth.value, CreateArgs(modName, namelen, parms));
      if o.errsv.Some? then Failure(o.errsv.value)
      else Success(if o.count == 1 then o.top else Null)
    else
      Success(ObjectRef(modName, addr))
  }

  /** True when `p` is the process's configuration pool: objects made then
      live as long as the server and get no eviction cleanup. */
  predicate IsStartup(p: Pool, s: ServerRec) {
    p == s.pconf
  }

  /** modperl_module_config_get_obj.
      A record that already has an object: that object, no error, no call
      into Perl, and neither the table, the record nor the pool changes.
      A record without one: its server and module info are filled in, the
      create step runs; if it died its $@ is returned and nothing is
      stored; otherwise the object is stored under the record, with an
      eviction cleanup on `p` unless `p` is the configuration pool. */
  method GetObj(interp: PerlInterpreter, p: Pool, table: PtrTable, cfg: CfgRec,
                modp: ModuleRec, meth: Option<string>, parms: CmdParms, addr: nat)
    returns (obj: Sv, err: Option<string>)
    modifies interp`calls, p, table, cfg
    ensures old(table.Fetch(cfg)) != Null ==>
      obj == old(table.Fetch(cfg)) && err == None &&
      table.entries == old(table.entries) && p.cleanups == old(p.cleanups) &&
      cfg.server == old(cfg.server) && cfg.minfo == old(cfg.minfo) &&
      interp.calls == old(interp.calls)
    ensures old(table.Fetch(cfg)) == Null ==>
      var r := CreateObj(interp.perl, meth, modp.name, modp.minfo.namelen, parms, addr);
      cfg.server == Some(parms.server) && cfg.minfo == Some(modp.minfo) &&
      interp.calls == old(interp.calls) +
        (if meth.Some? && interp.perl.resolves(meth.value)
         then [SubCall(meth.value, CreateArgs(modp.name, modp.minfo.namelen, parms))] else []) &&
      (r.Failure? ==> err == Some(r.error) &&
                      table.entries == old(table.entries) && p.cleanups == old(p.cleanups)) &&
      (r.Success? ==> err == None && obj == r.value &&
                      table.entries == old(table.entries)[cfg := r.value] &&
                      p.cleanups == old(p.cleanups) +
                        (if IsStartup(p, parms.server) then [] else [ConfigObjCleanup(table, cfg)]))
  {
    var minfo := modp.minfo;
    var isStartup := p == parms.server.pconf;

    obj := table.Fetch(cfg);
    if obj != Null {
      return obj, None;   // object already exists
    }

    cfg.server := Some(parms.server);
    cfg.minfo := Some(minfo);

    if meth.Some? && interp.perl.resolves(meth.value) {
      var o := interp.CallSub(meth.value, CreateArgs(modp.name, minfo.namelen, parms));
      if o.count == 1 {
        obj := o.top;
      }
      if o.errsv.Some? {
        return obj, Some(o.errsv.value);
      }
    } else {
      obj := ObjectRef(modp.name, addr);   // bless {}, $class
    }

    if !isStartup {
      ConfigObjCleanupRegister(p, table, cfg);
    }
    table.Store(cfg, obj);
    err := None;
  }

  // ---------------------------------------------------------------------
  // Merging (modperl_module_config_merge and its dir/srv wrappers).

  /** The object stored for a merged record: the merge method's return value
      (NULL unless exactly one value came back) when the method resolves,
      otherwise add's object.  A merge method that dies is only logged: $@
      does not enter into the result. */
  function MergedObj(perl: Perl, meth: Option<string>, baseObj: Sv, addObj: Sv): (r: Sv)
    ensures (meth.None? || !perl.resolves(meth.value)) ==> r == addObj
    ensures meth.Some? && perl.resolves(meth.value) ==>
      var o := perl.callSub(meth.value, [baseObj, addObj]);
      r == (if o.count == 1 then o.top else Null)
  {
    if meth.Some? && perl.resolves(meth.value) then
      var o := perl.callSub(meth.value, [baseObj, addObj]);
      if o.count == 1 then o.top else Null
    else addObj
  }

  /** The Perl calls a merge makes: the merge method on (base, add) when
      it resolves, and none otherwise. */
  function MergeCalls(perl: Perl, meth: Option<string>, baseObj: Sv, addObj: Sv): seq<PerlCall> {
    if meth.Some? && perl.resolves(meth.value) then [SubCall(meth.value, [baseObj, addObj])] else []
  }

  /** The record whose server and module info a merge works from. */
  function MergeSource(base: CfgRec, add: CfgRec): CfgRec
    reads base
  {
    if base.server.Some? then base else add
  }

  /** What the merge function hands back to Apache as the merged config:
      a record, or, as written, an SV pointer or a NULL dereference. */
  datatype MergeReturn = Record(rec: CfgRec) | SvPointer(sv: Sv) | NullDeref(field: string)

  /** modperl_module_config_merge as written.  With no server on the source
      record it dereferences NULL; when base has no object, or the same
      object as add, it returns add's object (an SV, not a config record)
      and touches nothing; otherwise it allocates a copy of the source
      record, stores the merged object under it (with an eviction cleanup
      outside startup) and returns it. */
  method MergeAsWritten(interp: PerlInterpreter, p: Pool, table: PtrTable,
                        base: CfgRec, add: CfgRec, meth: Option<string>)
    returns (r: MergeReturn)
    modifies interp`calls, p, table
    ensures var tmp := MergeSource(base, add);
      var bo := old(table.Fetch(base));
      var ao := old(table.Fetch(add));
      (tmp.server.None? ==> r == NullDeref("server")) &&
      (tmp.server.Some? && (bo == Null || bo == ao) ==> r == SvPointer(ao)) &&
      (r.NullDeref? || r.SvPointer? ==>
         table.entries == old(table.entries) && p.cleanups == old(p.cleanups) &&
         interp.calls == old(interp.calls)) &&
      (tmp.server.Some? && bo != Null && bo != ao ==>
         r.Record? && fresh(r.rec) &&
         r.rec.server == tmp.server && r.rec.minfo == tmp.minfo &&
         table.entries == old(table.entries)[r.rec := MergedObj(interp.perl, meth, bo, ao)] &&
         interp.calls == old(interp.calls) + MergeCalls(interp.perl, meth, bo, ao) &&
         p.cleanups == old(p.cleanups) +
           (if IsStartup(p, tmp.server.value) then [] else [ConfigObjCleanup(table, r.rec)]))
  {
    var tmp := if base.server.Some? then base else add;
    if tmp.server.None? {
      return NullDeref("server");   // s->process with s == NULL
    }
    var s := tmp.server.value;
    var isStartup := p == s.pconf;
    var baseObj := table.Fetch(base);
    var addObj := table.Fetch(add);
    if baseObj == Null || baseObj == addObj {
      return SvPointer(addObj);
    }
    var mrg := MergeInto(interp, p, table, tmp, baseObj, addObj, meth, isStartup);
    r := Record(mrg);
  }

  /** Lines 167-209: the part of the merge that builds the merged record. */
  method MergeInto(interp: PerlInterpreter, p: Pool, table: PtrTable, tmp: CfgRec,
                   baseObj: Sv, addObj: Sv, meth: Option<string>, isStartup: bool)
    returns (mrg: CfgRec)
    modifies interp`calls, p, table
    ensures fresh(mrg) && mrg.server == tmp.server && mrg.minfo == tmp.minfo
    ensures table.entries == old(table.entries)[mrg := MergedObj(interp.perl, meth, baseObj, addObj)]
    ensures p.cleanups == old(p.cleanups) + (if isStartup then [] else [ConfigObjCleanup(table, mrg)])
    ensures interp.calls == old(interp.calls) + MergeCalls(interp.perl, meth, baseObj, addObj)
  {
    mrg := new CfgRec();
    mrg.server, mrg.minfo := tmp.server, tmp.minfo;   // memcpy(mrg, tmp, ...)
    var mrgObj: Sv;
    if meth.Some? && interp.perl.resolves(meth.value) {
      var o := interp.CallSub(meth.value, [baseObj, addObj]);
      mrgObj := if o.count == 1 then o.top else Null;
      // a true $@ is logged through modperl_errsv and the merge goes on
    } else {
      mrgObj := addObj;
    }
    table.Store(mrg, mrgObj);
    if !isStartup {
      ConfigObjCleanupRegister(p, table, mrg);
    }
  }

  datatype MergeKind = DirMerge | SrvMerge

  function MergeMethod(minfo: ModuleInfo, kind: MergeKind): Option<string> {
    if kind == DirMerge then minfo.dirMerge else minfo.srvMerge
  }

  /** modperl_module_config_dir_merge / _srv_merge as written: the merge
      method is read through base->minfo, which is NULL when the base
      record has never seen a directive of the module. */
  method KindMergeAsWritten(interp: PerlInterpreter, p: Pool, table: PtrTable,
                            base: CfgRec, add: CfgRec, kind: MergeKind)
    returns (r: MergeReturn)
    modifies interp`calls, p, table
    ensures base.minfo.None? ==>
      r == NullDeref("minfo") && table.entries == old(table.entries) && p.cleanups == old(p.cleanups) &&
      interp.calls == old(interp.calls)
    ensures base.minfo.Some? ==>
      var tmp := MergeSource(base, add);
      var bo := old(table.Fetch(base));
      var ao := old(table.Fetch(add));
      (tmp.server.None? ==> r == NullDeref("server")) &&
      (tmp.server.Some? && (bo == Null || bo == ao) ==> r == SvPointer(ao)) &&
      (r.NullDeref? || r.SvPointer? ==>
         table.entries == old(table.entries) && p.cleanups == old(p.cleanups) &&
         interp.calls == old(interp.calls)) &&
      (tmp.server.Some? && bo != Null && bo != ao ==>
         r.Record? && fresh(r.rec) &&
         r.rec.server == tmp.server && r.rec.minfo == tmp.minfo &&
         table.entries == old(table.entries)[r.rec := MergedObj(interp.perl, MergeMethod(base.minfo.value, kind), bo, ao)] &&
         interp.calls == old(interp.calls) + MergeCalls(interp.perl, MergeMethod(base.minfo.value, kind), bo, ao) &&
         p.cleanups == old(p.cleanups) +
           (if IsStartup(p, tmp.server.value) then [] else [ConfigObjCleanup(table, r.rec)]))
  {
    if base.minfo.None? {
      return NullDeref("minfo");
    }
    r := MergeAsWritten(interp, p, table, base, add, MergeMethod(base.minfo.value, kind));
  }

  /** The merge as intended, which the rest of the model uses.  The merge
      method comes from the source record's module info; a pair of records
      that has seen no directive of the module, or whose objects need no
      merge, yields add itself; otherwise a fresh record carrying the merged
      object.  Whatever the case, the record returned is one the table maps
      to the merged object. */
  method Merge(interp: PerlInterpreter, p: Pool, table: PtrTable,
               base: CfgRec, add: CfgRec, kind: MergeKind)
    returns (r: CfgRec)
    modifies interp`calls, p, table
    ensures var tmp := MergeSource(base, add);
      var bo := old(table.Fetch(base));
      var ao := old(table.Fetch(add));
      var short := tmp.server.None? || tmp.minfo.None? || bo == Null || bo == ao;
      (short ==> r == add && table.entries == old(table.entries) &&
                 p.cleanups == old(p.cleanups) && interp.calls == old(interp.calls)) &&
      (!short ==> fresh(r) && r.server == tmp.server && r.minfo == tmp.minfo &&
                  table.entries == old(table.entries)[r := MergedObj(interp.perl, MergeMethod(tmp.minfo.value, kind), bo, ao)] &&
                  interp.calls == old(interp.calls) + MergeCalls(interp.perl, MergeMethod(tmp.minfo.value, kind), bo, ao) &&
                  p.cleanups == old(p.cleanups) +
                    (if IsStartup(p, tmp.server.value) then [] else [ConfigObjCleanup(table, r)]))
    ensures table.Fetch(r) == (if r == add then old(table.Fetch(add))
                               else MergedObj(interp.perl, MergeMethod(MergeSource(base, add).minfo.value, kind),
                                              old(table.Fetch(base)), old(table.Fetch(add))))
  {
    var tmp := if base.server.Some? then base else add;
    if tmp.server.None? || tmp.minfo.None? {
      return add;   // no directive of this module seen yet: nothing to merge
    }
    var s := tmp.server.value;
    var baseObj := table.Fetch(base);
    var addObj := table.Fetch(add);
    if baseObj == Null || baseObj == addObj {
      return add;
    }
    r := MergeInto(interp, p, table, tmp, baseObj, addObj, MergeMethod(tmp.minfo.value, kind), p == s.pconf);
  }

  /** A Perl interpreter in which no sub resolves and every call returns
      nothing; the counterexamples below never reach it. */
  function QuietPerl(): Perl {
    Perl(name => false,
         (pkg, m) => false,
         (name, args) => CallOutcome(0, Null, None),
         (name, args) => CallOutcome(0, Null, None),
         name => None,
         sv => "",
         name => 0)
  }

  /** A server whose configuration pool is `pconf`. */
  method NewServer(name: string, pconf: Pool) returns (s: ServerRec)
    ensures fresh(s) && s.name == name && s.pconf == pconf
  {
    var poolCfg := new PoolCfg();
    var scfg := new SrvConfig(poolCfg);
    s := new ServerRec(name, pconf, scfg);
  }

  /** The merge short-circuit as written hands Apache the add record's Perl
      object instead of a config record: the module's SERVER_CREATE gave the
      main server and a virtual host one shared object, so base and add map
      to the same SV and the result is an SV pointer. */
  method ShortCircuitReturnsObject() returns (r: MergeReturn)
    ensures r == SvPointer(ObjectRef("My::Module", 7))
  {
    var interp, p, table, base, add := SharedObjectSetup();
    r := KindMergeAsWritten(interp, p, table, base, add, SrvMerge);
  }

  /** The main server's and a virtual host's records, both with a server
      and module info, mapped to one shared Perl object. */
  method SharedObjectSetup() returns (interp: PerlInterpreter, p: Pool, table: PtrTable, base: CfgRec, add: CfgRec)
    ensures fresh(interp) && fresh(p) && fresh(table)
    ensures base.server.Some? && base.minfo.Some?
    ensures table.Fetch(base) == ObjectRef("My::Module", 7) && table.Fetch(add) == ObjectRef("My::Module", 7)
  {
    var pconf := new Pool();
    var s := NewServer("localhost", pconf);
    interp := new PerlInterpreter(QuietPerl());
    table := new PtrTable();
    var minfo := ModuleInfo(None, None, None, None, 10);
    base := new CfgRec();
    base.server, base.minfo := Some(s), Some(minfo);
    var shared := ObjectRef("My::Module", 7);
    table.Store(base, shared);
    add := new CfgRec();
    add.server, add.minfo := Some(s), Some(minfo);
    table.Store(add, shared);
    p := new Pool();
  }


  /** The dir/srv merge wrappers as written read base->minfo, which is NULL
      when only the add record (a <Location> block, a vhost) used the
      module's directives. */
  method MergeWithoutBaseDirectiveCrashes() returns (r: MergeReturn)
    ensures r == NullDeref("minfo")
  {
    var pconf := new Pool();
    var s := NewServer("localhost", pconf);
    var interp := new PerlInterpreter(QuietPerl());
    var table := new PtrTable();
    var base := new CfgRec();
    var add := new CfgRec();
    add.server, add.minfo := Some(s), Some(ModuleInfo(None, None, None, None, 10));
    table.Store(add, ObjectRef("My::Module", 7));
    var p := new Pool();
    r := KindMergeAsWritten(interp, p, table, base, add, DirMerge);
  }

  /** The corrected merge on the same two inputs returns the add record,
      which the table maps to add's object. */
  method MergeWithoutBaseDirectiveCorrected() returns (r: CfgRec, obj: Sv)
    ensures obj == ObjectRef("My::Module", 7)
  {
    var pconf := new Pool();
    var s := NewServer("localhost", pconf);
    var interp := new PerlInterpreter(QuietPerl());
    var table := new PtrTable();
    var base := new CfgRec();
    var add := new CfgRec();
    add.server, add.minfo := Some(s), Some(ModuleInfo(None, None, None, None, 10));
    table.Store(add, ObjectRef("My::Module", 7));
    var p := new Pool();
    r := Merge(interp, p, table, base, add, DirMerge);
    obj := table.Fetch(r);
  }

  // ---------------------------------------------------------------------
  // Dispatching a directive to its Perl method (modperl_module_cmd_take123
  // and the trampolines that call it).

  /** How many of the arguments are present (not NULL). */
  function PresentCount(args: seq<Option<string>>): (n: nat)
    ensures n <= |args|
  {
    if args == [] then 0
    else (if args[0].Some? then 1 else 0) + PresentCount(args[1..])
  }

  /** The string arguments that are present, in order (PUSH_STR_ARG). */
  function PresentArgs(args: seq<Option<string>>): (r: seq<Sv>)
    ensures |r| == PresentCount(args)
    ensures forall k :: 0 <= k < |r| ==> r[k].StrSv?
  {
    if args == [] then []
    else (if args[0].Some? then [StrSv(args[0].value)] else []) + PresentArgs(args[1..])
  }

  /** Each present argument is pushed as its string, right after the
      present arguments before it: the order of one, two, three is kept
      and the NULL ones leave no gap. */
  lemma {:induction false} PresentArgsContents(args: seq<Option<string>>)
    ensures forall k :: 0 <= k < |args| && args[k].Some? ==>
      PresentCount(args[..k]) < |PresentArgs(args)| &&
      PresentArgs(args)[PresentCount(args[..k])] == StrSv(args[k].value)
  {
    if args != [] {
      var rest := args[1..];
      PresentArgsContents(rest);
      var head: seq<Sv> := if args[0].Some? then [StrSv(args[0].value)] else [];
      assert PresentArgs(args) == head + PresentArgs(rest);
      forall k | 0 <= k < |args| && args[k].Some?
        ensures PresentCount(args[..k]) < |PresentArgs(args)| &&
                PresentArgs(args)[PresentCount(args[..k])] == StrSv(args[k].value)
      {
        if k == 0 {
          assert args[..0] == [];
        } else {
          assert args[..k][1..] == rest[..k - 1];
          assert rest[k - 1] == args[k];
          assert PresentCount(args[..k]) == |head| + PresentCount(rest[..k - 1]);
        }
      }
    }
  }

  /** The argument list of the directive's Perl method: the config object,
      the blessed cmd_parms and, unless the directive takes no arguments,
      the string arguments that were given. */
  function TakeArgs(argsHow: int, obj: Sv, parmsSv: Sv,
                    one: Option<string>, two: Option<string>, three: Option<string>): (r: seq<Sv>)
    ensures |r| >= 2 && r[0] == obj && r[1] == parmsSv
    ensures argsHow == NO_ARGS ==> |r| == 2
    ensures argsHow != NO_ARGS ==> r[2..] == PresentArgs([one, two, three])
  {
    [obj, parmsSv] + (if argsHow == NO_ARGS then [] else PresentArgs([one, two, three]))
  }

  /** What a directive handler hands back to Apache, from the outcome of the
      Perl method: $@ when the method died; DECLINE_CMD when it returned
      exactly that string; otherwise success (NULL). */
  function DirectiveReturn(perl: Perl, o: CallOutcome): (r: Option<string>)
    ensures o.errsv.Some? ==> r == o.errsv
    ensures o.errsv.None? ==> (r.Some? <==> o.count == 1 && SvPV(perl, o.top) == DECLINE_CMD)
    ensures r.Some? && r.value != DECLINE_CMD ==> r == o.errsv
  {
    if o.errsv.Some? then o.errsv
    else if o.count == 1 && SvPV(perl, o.top) == DECLINE_CMD then Some(DECLINE_CMD)
    else None
  }

  /** The object a config record has once get_obj has run on it: the one
      already stored, or the outcome of the create step. */
  function ObjFor(perl: Perl, stored: Sv, meth: Option<string>, modName: string, namelen: nat,
                  parms: CmdParms, addr: nat): Result<Sv, string>
  {
    if stored != Null then Success(stored)
    else CreateObj(perl, meth, modName, namelen, parms, addr)
  }

  /** The entries a get_obj step leaves in the table. */
  function StoredAfter(entries: map<CfgRec, Sv>, key: CfgRec, stored: Sv, r: Result<Sv, string>): map<CfgRec, Sv> {
    if stored == Null && r.Success? then entries[key := r.value] else entries
  }

  /** The cleanups a get_obj step adds to the pool. */
  function CleanupsAfter(p: Pool, s: ServerRec, table: PtrTable, key: CfgRec, stored: Sv,
                         r: Result<Sv, string>): seq<Cleanup> {
    if stored == Null && r.Success? && !IsStartup(p, s) then [ConfigObjCleanup(table, key)] else []
  }

  /** get_obj as one step of take123: the object, or the create error,
      together with the entries and cleanups it leaves behind. */
  method FetchOrCreate(interp: PerlInterpreter, p: Pool, table: PtrTable, cfg: CfgRec,
                       modp: ModuleRec, meth: Option<string>, parms: CmdParms, addr: nat)
    returns (r: Result<Sv, string>)
    modifies interp`calls, p, table, cfg
    ensures var stored := old(table.Fetch(cfg));
      r == ObjFor(interp.perl, stored, meth, modp.name, modp.minfo.namelen, parms, addr) &&
      table.entries == StoredAfter(old(table.entries), cfg, stored, r) &&
      p.cleanups == old(p.cleanups) + CleanupsAfter(p, parms.server, table, cfg, stored, r)
  {
    var obj, err := GetObj(interp, p, table, cfg, modp, meth, parms, addr);
    r := if err.Some? then Failure(err.value) else Success(obj);
  }

  /** True for a cmd_parms whose command was built by add_cmds: it carries
      the module and the name of the Perl method to call. */
  predicate PerlDirective(parms: CmdParms) {
    parms.cmd.Command? && parms.cmd.info.Some?
  }

  /** modperl_module_cmd_take123.  The per-dir object of `cfg` is fetched or
      created (DIR_CREATE), then, when the server has a config record for
      the module, the per-server one (SERVER_CREATE); a create that dies
      ends the directive with its $@.  Otherwise the directive's Perl method
      is called on the per-dir object with the blessed cmd_parms and the
      given arguments, and its outcome decides the return value. */
  method Take123(interp: PerlInterpreter, table: PtrTable, parms: CmdParms,
                 cfg: CfgRec, srvCfg: Option<CfgRec>,
                 one: Option<string>, two: Option<string>, three: Option<string>,
                 dirAddr: nat, srvAddr: nat)
    returns (ret: Option<string>)
    requires PerlDirective(parms)
    requires srvCfg != Some(cfg)
    modifies interp`calls, parms.pool, table, cfg, if srvCfg.Some? then {srvCfg.value} else {}
    ensures var info := parms.cmd.info.value;
      var minfo := info.modp.minfo;
      var perl := interp.perl;
      var p := parms.pool;
      var s := parms.server;
      var dStored := old(table.Fetch(cfg));
      var dr := ObjFor(perl, dStored, minfo.dirCreate, info.modp.name, minfo.namelen, parms, dirAddr);
      var e1 := StoredAfter(old(table.entries), cfg, dStored, dr);
      var c1 := old(p.cleanups) + CleanupsAfter(p, s, table, cfg, dStored, dr);
      (dr.Failure? ==> ret == Some(dr.error) && table.entries == e1 && p.cleanups == c1) &&
      (dr.Success? && srvCfg.None? ==>
         table.entries == e1 && p.cleanups == c1 &&
         ret == DirectiveReturn(perl, perl.callMethod(info.funcName,
                  TakeArgs(parms.cmd.argsHow, dr.value, parms.Blessed(), one, two, three)))) &&
      (dr.Success? && srvCfg.Some? ==>
         var sStored := old(table.Fetch(srvCfg.value));
         var sr := ObjFor(perl, sStored, minfo.srvCreate, info.modp.name, minfo.namelen, parms, srvAddr);
         table.entries == StoredAfter(e1, srvCfg.value, sStored, sr) &&
         p.cleanups == c1 + CleanupsAfter(p, s, table, srvCfg.value, sStored, sr) &&
         (sr.Failure? ==> ret == Some(sr.error)) &&
         (sr.Success? ==>
            ret == DirectiveReturn(perl, perl.callMethod(info.funcName,
                     TakeArgs(parms.cmd.argsHow, dr.value, parms.Blessed(), one, two, three)))))
  {
    var info := parms.cmd.info.value;
    var minfo := info.modp.minfo;
    var p := parms.pool;

    var dr := FetchOrCreate(interp, p, table, cfg, info.modp, minfo.dirCreate, parms, dirAddr);
    if dr.Failure? {
      return Some(dr.error);
    }
    var obj := dr.value;

    if srvCfg.Some? {
      var sr := FetchOrCreate(interp, p, table, srvCfg.value, info.modp, minfo.srvCreate, parms, srvAddr);
      if sr.Failure? {
        return Some(sr.error);
      }
    }

    var args := TakeArgs(parms.cmd.argsHow, obj, parms.Blessed(), one, two, three);
    var o := interp.CallMethod(info.funcName, args);
    ret := DirectiveReturn(interp.perl, o);
  }

  /** The arguments Apache hands a directive, by the command's args_how. */
  datatype DirectiveArgs = Words(w1: Option<string>, w2: Option<string>, w3: Option<string>)
                         | FlagArg(on: bool)
                         | NoArgs

  /** The flag as modperl_module_cmd_flag prints it: "%d" into a two-byte
      buffer, so at most one character survives. */
  function FlagString(on: bool): (r: string)
    ensures |r| == 1
    ensures r == (if on then "1" else "0")
    ensures IntToString(if on then 1 else 0) == r
  {
    var full := IntToString(if on then 1 else 0);
    full[..1]
  }

  /** The three optional strings a trampoline passes on to take123. */
  function TrampolineArgs(func: CmdFunc, args: DirectiveArgs): (r: (Option<string>, Option<string>, Option<string>))
    ensures func == Take1 && args.Words? ==> r == (args.w1, None, None)
    ensures func == Take2 && args.Words? ==> r == (args.w1, args.w2, None)
    ensures func == Take3 && args.Words? ==> r == (args.w1, args.w2, args.w3)
    ensures func == FlagFunc && args.FlagArg? ==> r == (Some(if args.on then "1" else "0"), None, None)
    ensures func == NoArgsFunc ==> r == (None, None, None)
  {
    match func
    case Take1 => (if args.Words? then args.w1 else None, None, None)
    case Take2 => if args.Words? then (args.w1, args.w2, None) else (None, None, None)
    case Take3 => if args.Words? then (args.w1, args.w2, args.w3) else (None, None, None)
    case FlagFunc => (if args.FlagArg? then Some(FlagString(args.on)) else None, None, None)
    case NoArgsFunc => (None, None, None)
  }

  /** modperl_module_cmd_take1 / _take2 / take123 (as _take3, _take23,
      _take13), _flag, _no_args, and the RAW_ARGS / ITERATE / ITERATE2 /
      TAKE12 aliases: each forwards to take123 with the arguments it has. */
  method Trampoline(interp: PerlInterpreter, table: PtrTable, parms: CmdParms,
                    cfg: CfgRec, srvCfg: Option<CfgRec>, args: DirectiveArgs,
                    dirAddr: nat, srvAddr: nat)
    returns (ret: Option<string>)
    requires PerlDirective(parms) && parms.cmd.func.Some?
    requires srvCfg != Some(cfg)
    modifies interp`calls, parms.pool, table, cfg, if srvCfg.Some? then {srvCfg.value} else {}
    ensures var info := parms.cmd.info.value;
      var perl := interp.perl;
      var a := TrampolineArgs(parms.cmd.func.value, args);
      var dr := ObjFor(perl, old(table.Fetch(cfg)), info.modp.minfo.dirCreate, info.modp.name,
                       info.modp.minfo.namelen, parms, dirAddr);
      var sr := if srvCfg.None? then Success(Null)
                else ObjFor(perl, old(table.Fetch(srvCfg.value)), info.modp.minfo.srvCreate,
                            info.modp.name, info.modp.minfo.namelen, parms, srvAddr);
      (dr.Failure? ==> ret == Some(dr.error)) &&
      (dr.Success? && sr.Failure? ==> ret == Some(sr.error)) &&
      (dr.Success? && sr.Success? ==>
         ret == DirectiveReturn(perl, perl.callMethod(info.funcName,
                  TakeArgs(parms.cmd.argsHow, dr.value, parms.Blessed(), a.0, a.1, a.2))))
    ensures var info := parms.cmd.info.value;
      var minfo := info.modp.minfo;
      var p := parms.pool;
      var s := parms.server;
      var dStored := old(table.Fetch(cfg));
      var dr := ObjFor(interp.perl, dStored, minfo.dirCreate, info.modp.name, minfo.namelen, parms, dirAddr);
      var e1 := StoredAfter(old(table.entries), cfg, dStored, dr);
      var c1 := old(p.cleanups) + CleanupsAfter(p, s, table, cfg, dStored, dr);
      (dr.Failure? || srvCfg.None? ==> table.entries == e1 && p.cleanups == c1) &&
      (dr.Success? && srvCfg.Some? ==>
         var sStored := old(table.Fetch(srvCfg.value));
         var sr := ObjFor(interp.perl, sStored, minfo.srvCreate, info.modp.name, minfo.namelen, parms, srvAddr);
         table.entries == StoredAfter(e1, srvCfg.value, sStored, sr) &&
         p.cleanups == c1 + CleanupsAfter(p, s, table, srvCfg.value, sStored, sr))
  {
    var a := TrampolineArgs(parms.cmd.func.value, args);
    ret := Take123(interp, table, parms, cfg, srvCfg, a.0, a.1, a.2, dirAddr, srvAddr);
  }

  /** modperl_module_cmd_lookup: the trampoline for an args_how, or None for
      a value Apache does not define. */
  function CmdLookup(argsHow: int): (r: Option<CmdFunc>)
    ensures r.Some? <==> RAW_ARGS <= argsHow <= TAKE13
    ensures r == Some(Take1) <==> argsHow in {RAW_ARGS, TAKE1, ITERATE}
    ensures r == Some(Take2) <==> argsHow in {TAKE2, ITERATE2, TAKE12}
    ensures r == Some(Take3) <==> argsHow in {TAKE3, TAKE23, TAKE123, TAKE13}
    ensures r == Some(FlagFunc) <==> argsHow == FLAG
    ensures r == Some(NoArgsFunc) <==> argsHow == NO_ARGS
  {
    if argsHow == TAKE1 || argsHow == ITERATE then Some(Take1)
    else if argsHow == TAKE2 || argsHow == ITERATE2 || argsHow == TAKE12 then Some(Take2)
    else if argsHow == TAKE3 || argsHow == TAKE23 || argsHow == TAKE123 || argsHow == TAKE13 then Some(Take3)
    else if argsHow == RAW_ARGS then Some(Take1)
    else if argsHow == FLAG then Some(FlagFunc)
    else if argsHow == NO_ARGS then Some(NoArgsFunc)
    else None
  }

  /** Every trampoline passes each word Apache collected for its args_how on
      to the Perl method: a one-word directive gets one string, a two-word
      one up to two, a three-word one up to three. */
  lemma TrampolinePassesWords(argsHow: int, obj: Sv, parmsSv: Sv, w1: string, w2: Option<string>, w3: Option<string>)
    requires CmdLookup(argsHow).Some? && argsHow != FLAG && argsHow != NO_ARGS
    ensures var a := TrampolineArgs(CmdLookup(argsHow).value, Words(Some(w1), w2, w3));
      var r := TakeArgs(argsHow, obj, parmsSv, a.0, a.1, a.2);
      r[..3] == [obj, parmsSv, StrSv(w1)] &&
      (argsHow in {TAKE1, ITERATE, RAW_ARGS} ==> |r| == 3) &&
      (argsHow in {TAKE2, ITERATE2, TAKE12} ==> r == [obj, parmsSv, StrSv(w1)] + PresentArgs([w2])) &&
      (argsHow in {TAKE3, TAKE23, TAKE123, TAKE13} ==> r == [obj, parmsSv, StrSv(w1)] + PresentArgs([w2, w3]))
  {
    var a := TrampolineArgs(CmdLookup(argsHow).value, Words(Some(w1), w2, w3));
    assert PresentArgs([a.0, a.1, a.2])[0] == StrSv(w1);
    if argsHow in {TAKE1, ITERATE, RAW_ARGS} {
      var none: Option<string> := None;
      assert [a.0, a.1, a.2][1..] == [none, none];
      assert [none, none][1..] == [none];
      assert [none][1..] == [];
      assert PresentArgs([none]) == [];
      assert PresentArgs([none, none]) == [];
      assert PresentArgs([a.0, a.1, a.2]) == [StrSv(w1)];
    } else if argsHow in {TAKE2, ITERATE2, TAKE12} {
      var none: Option<string> := None;
      assert [a.0, a.1, a.2][1..] == [w2, none];
      assert [w2, none][1..] == [none];
      assert [w2][1..] == [];
      assert [none][1..] == [];
      assert PresentArgs([w2, none]) == PresentArgs([w2]);
    } else if argsHow in {TAKE3, TAKE23, TAKE123, TAKE13} {
      assert [a.0, a.1, a.2][1..] == [w2, w3];
    }
  }

  // ---------------------------------------------------------------------
  // Building the command table from @APACHE_MODULE_COMMANDS
  // (modperl_module_cmd_fetch, modperl_module_add_cmds).

  /** modperl_module_cmd_fetch: one field of a command entry.  An object is
      asked through the method of that name, which must return exactly one
      true value (else an error naming the class and field; $@ wins when
      true); a plain hash reference must have the key; anything else is an
      error. */
  function CmdFetch(perl: Perl, obj: Sv, name: string): (r: Result<Sv, string>)
    ensures r.Success? ==> IsObject(obj) || IsHashRef(obj)
    ensures IsObject(obj) ==>
      var o := perl.callMethod(name, [obj]);
      (r.Success? <==> o.errsv.None? && o.count == 1 && SvTrue(o.top)) &&
      (r.Success? ==> r.value == o.top) &&
      (o.errsv.Some? ==> r == Failure(o.errsv.value))
    ensures IsHashRef(obj) ==>
      (r.Success? <==> name in obj.h) && (r.Success? ==> r.value == obj.h[name])
    ensures !IsObject(obj) && !IsHashRef(obj) ==>
      r == Failure("command entry is not an object or a HASH reference")
  {
    if IsObject(obj) then
      var o := perl.callMethod(name, [obj]);
      if o.errsv.Some? then Failure(o.errsv.value)
      else if o.count == 1 && SvTrue(o.top) then Success(o.top)
      else Failure(SvClass(obj) + "->" + name + " did not return a "
                   + (if o.count != 0 then "true " else "") + "value")
    else if IsHashRef(obj) then
      if name in obj.h then Success(obj.h[name])
      else Failure("HASH key " + name + " does not exist")
    else
      Failure("command entry is not an object or a HASH reference")
  }

  /** A string field of a command entry, None when it cannot be fetched. */
  function StrField(perl: Perl, obj: Sv, name: string): Option<string> {
    var v := CmdFetch(perl, obj, name);
    if v.Success? then Some(SvPV(perl, v.value)) else None
  }

  /** An integer field (args_how, req_override): the integer itself when the
      SV holds one, otherwise the Apache constant its string names. */
  function IntField(perl: Perl, obj: Sv, name: string): Option<int> {
    var v := CmdFetch(perl, obj, name);
    if v.Failure? then None
    else if v.value.IntSv? then Some(v.value.i)
    else Some(perl.constant(SvPV(perl, v.value)))
  }

  /** args_how of a command entry, TAKE1 when it has none. */
  function ArgsHowOf(perl: Perl, obj: Sv): int {
    IntField(perl, obj, "args_how").GetOr(TAKE1)
  }

  /** One command_rec built from one entry of @APACHE_MODULE_COMMANDS. */
  function BuildCommand(perl: Perl, modp: ModuleRec, obj: Sv): (r: Result<CommandRec, string>)
    ensures r.Failure? <==> StrField(perl, obj, "name").None? || CmdLookup(ArgsHowOf(perl, obj)).None?
    ensures StrField(perl, obj, "name").None? ==> r == Failure(CmdFetch(perl, obj, "name").error)
    ensures StrField(perl, obj, "name").Some? && CmdLookup(ArgsHowOf(perl, obj)).None? ==>
      r == Failure("no command function defined for args_how=" + IntToString(ArgsHowOf(perl, obj)))
    ensures r.Success? ==>
      r.value.Command? && r.value.func.Some? && r.value.func == CmdLookup(r.value.argsHow) &&
      r.value.info.Some? && r.value.info.value.modp == modp &&
      r.value.name == StrField(perl, obj, "name").value &&
      r.value.argsHow == ArgsHowOf(perl, obj)
  {
    var name := StrField(perl, obj, "name");
    if name.None? then Failure(CmdFetch(perl, obj, "name").error)
    else
      var argsHow := ArgsHowOf(perl, obj);
      var func := CmdLookup(argsHow);
      if func.None? then
        Failure("no command function defined for args_how=" + IntToString(argsHow))
      else
        var info := CmdInfo(modp, StrField(perl, obj, "data"),
                            StrField(perl, obj, "func").GetOr(name.value));
        Success(Command(name.value, func, argsHow,
                        IntField(perl, obj, "req_override").GetOr(OR_ALL),
                        StrField(perl, obj, "errmsg").GetOr(name.value + " command"),
                        Some(info)))
  }

  /** The defaults add_cmds fills in for the optional fields of an entry. */
  lemma BuildCommandDefaults(perl: Perl, modp: ModuleRec, obj: Sv)
    requires BuildCommand(perl, modp, obj).Success?
    ensures var c := BuildCommand(perl, modp, obj).value;
      (CmdFetch(perl, obj, "args_how").Failure? ==> c.argsHow == TAKE1 && c.func == Some(Take1)) &&
      (CmdFetch(perl, obj, "func").Failure? ==> c.info.value.funcName == c.name) &&
      (CmdFetch(perl, obj, "req_override").Failure? ==> c.reqOverride == OR_ALL) &&
      (CmdFetch(perl, obj, "errmsg").Failure? ==> c.errmsg == c.name + " command") &&
      (CmdFetch(perl, obj, "data").Failure? <==> c.info.value.cmdData.None?)
  {
  }

  /** How one entry of @APACHE_MODULE_COMMANDS becomes a command_rec. */
  type Builder = Sv -> Result<CommandRec, string>

  /** The builder add_cmds uses for module `modp`. */
  function BuildFor(perl: Perl, modp: ModuleRec): Builder {
    obj => BuildCommand(perl, modp, obj)
  }

  /** The command_recs for a list of entries, stopping at the first entry
      that cannot be turned into one. */
  function Commands(build: Builder, objs: seq<Sv>): Result<seq<CommandRec>, string>
    decreases |objs|
  {
    if objs == [] then Success([])
    else
      var pre := Commands(build, objs[..|objs| - 1]);
      if pre.Failure? then pre
      else
        var c := build(objs[|objs| - 1]);
        if c.Failure? then Failure(c.error) else Success(pre.value + [c.value])
  }

  /** The entries all turn into commands exactly when each one does. */
  lemma {:induction false} CommandsSuccess(build: Builder, objs: seq<Sv>)
    ensures Commands(build, objs).Success? <==> forall k :: 0 <= k < |objs| ==> build(objs[k]).Success?
    decreases |objs|
  {
    if objs != [] {
      var init := objs[..|objs| - 1];
      CommandsSuccess(build, init);
      assert forall k :: 0 <= k < |init| ==> init[k] == objs[k];
    }
  }

  /** On success the k-th command is built from the k-th entry. */
  lemma {:induction false} CommandsValues(build: Builder, objs: seq<Sv>)
    requires Commands(build, objs).Success?
    ensures var cmds := Commands(build, objs).value;
      |cmds| == |objs| &&
      forall k :: 0 <= k < |objs| ==> build(objs[k]).Success? && cmds[k] == build(objs[k]).value
    decreases |objs|
  {
    if objs != [] {
      var init := objs[..|objs| - 1];
      CommandsValues(build, init);
      assert forall k :: 0 <= k < |init| ==> init[k] == objs[k];
    }
  }

  /** A failure is the error of the first entry that fails. */
  lemma {:induction false} CommandsFirstError(build: Builder, objs: seq<Sv>)
    requires Commands(build, objs).Failure?
    ensures exists k :: 0 <= k < |objs| && build(objs[k]).Failure? &&
                        Commands(build, objs).error == build(objs[k]).error &&
                        forall j :: 0 <= j < k ==> build(objs[j]).Success?
    decreases |objs|
  {
    var init := objs[..|objs| - 1];
    assert forall k :: 0 <= k < |init| ==> init[k] == objs[k];
    if Commands(build, init).Failure? {
      CommandsFirstError(build, init);
    } else {
      CommandsValues(build, init);
      var k := |objs| - 1;
      assert build(objs[k]).Failure?;
    }
  }

  /** Once a prefix of the entries fails, the whole list fails the same way. */
  lemma {:induction false} CommandsPrefixFailure(build: Builder, objs: seq<Sv>, i: nat)
    requires i <= |objs|
    requires Commands(build, objs[..i]).Failure?
    ensures Commands(build, objs) == Commands(build, objs[..i])
    decreases |objs| - i
  {
    if i < |objs| {
      var j := i + 1;
      assert objs[..j][..j - 1] == objs[..i];
      CommandsPrefixFailure(build, objs, j);
    } else {
      assert objs[..i] == objs;
    }
  }

  /** One more entry: the commands of objs[..i+1] from those of objs[..i]. */
  lemma CommandsStep(build: Builder, objs: seq<Sv>, i: nat)
    requires i < |objs|
    ensures var pre := Commands(build, objs[..i]);
      var c := build(objs[i]);
      Commands(build, objs[..i + 1]) ==
        if pre.Failure? then pre else if c.Failure? then Failure(c.error) else Success(pre.value + [c.value])
  {
    assert objs[..i + 1][..i] == objs[..i];
  }

  /** The name of a module's command array. */
  function CommandsVar(modName: string): string {
    modName + "::APACHE_MODULE_COMMANDS"
  }

  /** The command table a module gets: one command_rec per entry of its
      @APACHE_MODULE_COMMANDS followed by the NULL-named terminator, or the
      first error. */
  function ModuleCommands(perl: Perl, modp: ModuleRec): Result<seq<CommandRec>, string> {
    var av := perl.arrayVar(CommandsVar(modp.name));
    if av.None? then
      Failure("module " + modp.name + " does not define @APACHE_MODULE_COMMANDS")
    else
      var cmds := Commands(BuildFor(perl, modp), av.value);
      if cmds.Failure? then Failure(cmds.error) else Success(cmds.value + [Terminator])
  }

  /** A module's table has one command per entry and ends with the
      terminator, which is its only nameless entry; every command dispatches
      through the trampoline its args_how selects and belongs to the
      module. */
  lemma ModuleCommandsShape(perl: Perl, modp: ModuleRec)
    requires ModuleCommands(perl, modp).Success?
    ensures var t := ModuleCommands(perl, modp).value;
      var objs := perl.arrayVar(CommandsVar(modp.name)).value;
      |t| == |objs| + 1 && t[|t| - 1] == Terminator &&
      forall k :: 0 <= k < |objs| ==>
        BuildCommand(perl, modp, objs[k]).Success? && t[k] == BuildCommand(perl, modp, objs[k]).value && t[k].Command? &&
        t[k].func == CmdLookup(t[k].argsHow) && t[k].func.Some? &&
        t[k].info.Some? && t[k].info.value.modp == modp
  {
    var objs := perl.arrayVar(CommandsVar(modp.name)).value;
    CommandsValues(BuildFor(perl, modp), objs);
  }

  /** A module's table fails to build when the module has no
      @APACHE_MODULE_COMMANDS, or with the error of its first entry that
      cannot be turned into a command, every entry before it being good. */
  lemma ModuleCommandsFailure(perl: Perl, modp: ModuleRec)
    requires ModuleCommands(perl, modp).Failure?
    ensures var av := perl.arrayVar(CommandsVar(modp.name));
      var err := ModuleCommands(perl, modp).error;
      (av.None? ==> err == "module " + modp.name + " does not define @APACHE_MODULE_COMMANDS") &&
      (av.Some? ==> exists k :: 0 <= k < |av.value| &&
                      BuildCommand(perl, modp, av.value[k]).Failure? &&
                      err == BuildCommand(perl, modp, av.value[k]).error &&
                      forall j :: 0 <= j < k ==> BuildCommand(perl, modp, av.value[j]).Success?)
  {
    var av := perl.arrayVar(CommandsVar(modp.name));
    if av.Some? {
      CommandsFirstError(BuildFor(perl, modp), av.value);
    }
  }

  /** The loop of modperl_module_add_cmds: builds the table entry by entry,
      stopping at the first error. */
  method CommandTable(perl: Perl, modp: ModuleRec) returns (r: Result<seq<CommandRec>, string>)
    ensures r == ModuleCommands(perl, modp)
  {
    var av := perl.arrayVar(CommandsVar(modp.name));
    if av.None? {
      return Failure("module " + modp.name + " does not define @APACHE_MODULE_COMMANDS");
    }
    var objs := av.value;
    var cmds: seq<CommandRec> := [];
    for i := 0 to |objs|
      invariant Commands(BuildFor(perl, modp), objs[..i]) == Success(cmds)
    {
      var c := BuildCommand(perl, modp, objs[i]);
      CommandsStep(BuildFor(perl, modp), objs, i);
      if c.Failure? {
        CommandsPrefixFailure(BuildFor(perl, modp), objs, i + 1);
        return Failure(c.error);
      }
      cmds := cmds + [c.value];
    }
    assert objs[..|objs|] == objs;
    r := Success(cmds + [Terminator]);
  }

  /** modperl_module_add_cmds: on success the module's cmds are the table;
      on error they stay unset. */
  method AddCmds(perl: Perl, modp: ModuleRec) returns (err: Option<string>)
    modifies modp`cmds
    ensures var t := ModuleCommands(perl, modp);
      (t.Failure? ==> err == Some(t.error) && modp.cmds == old(modp.cmds)) &&
      (t.Success? ==> err == None && modp.cmds == Some(t.value))
  {
    var t := CommandTable(perl, modp);
    if t.Failure? {
      return Some(t.error);
    }
    modp.cmds := Some(t.value);
    err := None;
  }

  // ---------------------------------------------------------------------
  // Registering a Perl module with Apache (modperl_module_insert,
  // modperl_module_fetch_method, modperl_module_add).

  /** The module list with `modp` placed right after the first occurrence
      of `after`; unchanged when `after` is not in it. */
  function InsertAfter(mods: seq<ModuleRec>, after: ModuleRec, modp: ModuleRec): seq<ModuleRec>
  {
    if mods == [] then []
    else if mods[0] == after then [after, modp] + mods[1..]
    else [mods[0]] + InsertAfter(mods[1..], after, modp)
  }

  /** With `after` first found at index i, the module is inserted at i + 1. */
  lemma {:induction false} InsertAfterAt(mods: seq<ModuleRec>, after: ModuleRec, modp: ModuleRec, i: nat)
    requires i < |mods| && mods[i] == after && after !in mods[..i]
    ensures InsertAfter(mods, after, modp) == mods[..i + 1] + [modp] + mods[i + 1..]
    decreases i
  {
    if i > 0 {
      assert mods[0] != after by { assert mods[0] == mods[..i][0]; }
      assert mods[1..][..i - 1] == mods[..i][1..];
      InsertAfterAt(mods[1..], after, modp, i - 1);
      assert mods[..i + 1] == [mods[0]] + mods[1..][..i];
    }
  }

  /** Without `after` in the list nothing is inserted. */
  lemma {:induction false} InsertAfterAbsent(mods: seq<ModuleRec>, after: ModuleRec, modp: ModuleRec)
    requires after !in mods
    ensures InsertAfter(mods, after, modp) == mods
    decreases |mods|
  {
    if mods != [] {
      assert mods[1..] <= mods[1..];
      InsertAfterAbsent(mods[1..], after, modp);
    }
  }

  /** Inserting adds exactly `modp` when `after` is present and keeps every
      other module. */
  lemma InsertAfterContents(mods: seq<ModuleRec>, after: ModuleRec, modp: ModuleRec)
    ensures multiset(InsertAfter(mods, after, modp)) ==
            multiset(mods) + (if after in mods then multiset{modp} else multiset{})
  {
    if after in mods {
      var i :| 0 <= i < |mods| && mods[i] == after;
      i := FirstIndex(mods, after);
      InsertAfterAt(mods, after, modp, i);
      assert mods == mods[..i + 1] + mods[i + 1..];
    } else {
      InsertAfterAbsent(mods, after, modp);
    }
  }

  function FirstIndex(mods: seq<ModuleRec>, m: ModuleRec): (i: nat)
    requires m in mods
    ensures i < |mods| && mods[i] == m && m !in mods[..i]
  {
    if mods[0] == m then 0 else 1 + FirstIndex(mods[1..], m)
  }

  /** Apache's module list (ap_top_module and the `next` links) and
      mod_perl's own module record. */
  class ModuleChain {
    var mods: seq<ModuleRec>
    const perlModule: ModuleRec

    constructor (mods: seq<ModuleRec>, perlModule: ModuleRec)
      ensures this.mods == mods && this.perlModule == perlModule
    {
      this.mods := mods;
      this.perlModule := perlModule;
    }

    /** modperl_module_insert: link `modp` in right after mod_perl, so that
        mod_perl's own config is merged before the new module's. */
    method Insert(modp: ModuleRec)
      modifies this
      ensures mods == InsertAfter(old(mods), perlModule, modp)
    {
      var i := 0;
      while i < |mods|
        invariant 0 <= i <= |mods| && mods == old(mods)
        invariant perlModule !in mods[..i]
      {
        if mods[i] == perlModule {
          InsertAfterAt(mods, perlModule, modp, i);
          mods := mods[..i + 1] + [modp] + mods[i + 1..];
          return;
        }
        assert mods[..i + 1] == mods[..i] + [mods[i]];
        i := i + 1;
      }
      assert mods[..i] == mods;
      InsertAfterAbsent(mods, perlModule, modp);
    }
  }

  /** modperl_module_fetch_method: the compiled "Pkg::method" name when the
      package has (or inherits) the method, None otherwise. */
  function FetchMethod(perl: Perl, pkg: string, meth: string): (r: Option<string>)
    ensures r.Some? <==> perl.hasMethod(pkg, meth)
    ensures r.Some? ==> r.value == pkg + "::" + meth
  {
    if perl.hasMethod(pkg, meth) then Some(pkg + "::" + meth) else None
  }

  /** The module info modperl_module_add records for a package. */
  function InfoFor(perl: Perl, name: string): (minfo: ModuleInfo)
    ensures minfo.namelen == |name|
    ensures minfo.dirCreate == FetchMethod(perl, name, "DIR_CREATE")
    ensures minfo.dirMerge == FetchMethod(perl, name, "DIR_MERGE")
    ensures minfo.srvCreate == FetchMethod(perl, name, "SERVER_CREATE")
    ensures minfo.srvMerge == FetchMethod(perl, name, "SERVER_MERGE")
  {
    ModuleInfo(FetchMethod(perl, name, "DIR_CREATE"), FetchMethod(perl, name, "DIR_MERGE"),
               FetchMethod(perl, name, "SERVER_CREATE"), FetchMethod(perl, name, "SERVER_MERGE"),
               |name|)
  }

  /** modperl_module_add: a new module record for the Perl package `name`,
      with its module info and command table.  When the table cannot be
      built the error is returned and Apache's module list, the pool and
      the server's module map are untouched.  Otherwise the module is
      linked in after mod_perl, a cleanup on `p` will unload it, and the
      server's module map records it under its name. */
  method ModuleAdd(perl: Perl, p: Pool, s: ServerRec, chain: ModuleChain, name: string)
    returns (modp: ModuleRec, err: Option<string>)
    modifies p, chain, s.scfg`modules
    ensures fresh(modp) && modp.name == name && modp.moduleIndex == -1
    ensures modp.minfo == InfoFor(perl, name)
    ensures var t := ModuleCommands(perl, modp);
      (t.Failure? ==>
         err == Some(t.error) && modp.cmds == None &&
         chain.mods == old(chain.mods) && p.cleanups == old(p.cleanups) &&
         s.scfg.modules == old(s.scfg.modules)) &&
      (t.Success? ==>
         err == None && modp.cmds == Some(t.value) &&
         chain.mods == InsertAfter(old(chain.mods), chain.perlModule, modp) &&
         p.cleanups == old(p.cleanups) + [ModuleRemove(modp)] &&
         s.scfg.modules == Some(old(s.scfg.modules).GetOr(map[])[name := modp]))
  {
    modp := new ModuleRec(name);
    modp.minfo := InfoFor(perl, name);
    err := AddCmds(perl, modp);
    if err.Some? {
      return;
    }
    chain.Insert(modp);
    p.Register(ModuleRemove(modp));
    var mods := if s.scfg.modules.Some? then s.scfg.modules.value else map[];
    s.scfg.modules := Some(mods[name := modp]);
  }
}
