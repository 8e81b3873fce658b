/** The records mod_perl's core files work on: server and directory
    configuration (modperl_config_srv_t, modperl_config_dir_t), the native
    config record of a Perl-defined Apache module (modperl_module_cfg_t), the
    pointer table that maps such records to Perl objects (modperl_svptr_table),
    Apache's module and command records (module, command_rec), the
    interpreter pool handles (modperl_interp_t, modperl_interp_pool_t), and
    APR pools with their cleanup lists.  Their declarations live in headers
    that are not part of this model; the fields here are the ones the core
    files read and write. */
module ModPerlTypes {
  import opened Wrappers
  import opened PerlRuntime
  import opened AprTable

  /** An APR pool (apr_pool_t).  Cleanups registered on it run, last
      registered first, when the pool is released. */
  class Pool {
    var cleanups: seq<Cleanup>

    constructor ()
      ensures cleanups == []
    {
      cleanups := [];
    }

    /** apr_pool_cleanup_register */
    method Register(c: Cleanup)
      modifies this
      ensures cleanups == old(cleanups) + [c]
    {
      cleanups := cleanups + [c];
    }
  }

  datatype Cleanup =
    | ConfigObjCleanup(table: PtrTable, key: CfgRec) // modperl_module_config_obj_cleanup
    | ModuleRemove(modp: ModuleRec)                   // modperl_module_remove
    | PerlShutdown(perl: PerlId)                      // modperl_shutdown (non-threaded build)

  /** The per-interpreter pointer table (PTR_TBL_t) mapping a native config
      record to the Perl object created or merged for it.  A stored value may
      be `Null`; a fetch of a missing key answers `Null` as well. */
  class PtrTable {
    var entries: map<CfgRec, Sv>

    constructor ()
      ensures entries == map[]
    {
      entries := map[];
    }

    function Fetch(key: CfgRec): (sv: Sv)
      reads this
      ensures key !in entries ==> sv == Null
      ensures key in entries ==> sv == entries[key]
    {
      if key in entries then entries[key] else Null
    }

    method Store(key: CfgRec, sv: Sv)
      modifies this
      ensures entries == old(entries)[key := sv]
      ensures Fetch(key) == sv
    {
      entries := entries[key := sv];
    }

    method Delete(key: CfgRec)
      modifies this
      ensures entries == old(entries) - {key}
      ensures Fetch(key) == Null
    {
      entries := entries - {key};
    }
  }

  /** modperl_module_info_t: the compiled names of the module's DIR_CREATE,
      DIR_MERGE, SERVER_CREATE and SERVER_MERGE methods, each absent when the
      package does not define it. */
  datatype ModuleInfo = ModuleInfo(
    dirCreate: Option<string>,
    dirMerge: Option<string>,
    srvCreate: Option<string>,
    srvMerge: Option<string>,
    namelen: nat)

  /** modperl_module_cfg_t: the native per-dir or per-server config record
      of a Perl-defined module; allocated zeroed, filled in when the first
      directive of the module is seen. */
  class CfgRec {
    var server: Option<ServerRec>
    var minfo: Option<ModuleInfo>

    constructor ()
      ensures server == None && minfo == None
    {
      server := None;
      minfo := None;
    }
  }

  /** Which trampoline a Perl-defined directive is dispatched through. */
  datatype CmdFunc = Take1 | Take2 | Take3 | FlagFunc | NoArgsFunc

  /** modperl_module_cmd_data_t */
  datatype CmdInfo = CmdInfo(modp: ModuleRec, cmdData: Option<string>, funcName: string)

  /** command_rec; `Terminator` is the entry whose name is NULL. */
  datatype CommandRec =
    | Command(name: string, func: Option<CmdFunc>, argsHow: int, reqOverride: int,
              errmsg: string, info: Option<CmdInfo>)
    | Terminator

  /** Apache's `module` record, for a module defined in Perl. */
  class ModuleRec {
    const name: string
    var moduleIndex: int
    var minfo: ModuleInfo
    var cmds: Option<seq<CommandRec>>

    constructor (name: string)
      ensures this.name == name && moduleIndex == -1 && cmds == None
      ensures minfo == ModuleInfo(None, None, None, None, 0)
    {
      this.name := name;
      moduleIndex := -1;
      minfo := ModuleInfo(None, None, None, None, 0);
      cmds := None;
    }
  }

  /** modperl_options_t: the set of options switched on, by name
      ("Enable", "Parent", "Clone", "ParseHeaders", ...). */
  datatype Options = Options(on: set<string>)

  datatype InterpScope = ScopeUndef | Handler | Subrequest | Request | Connection

  /** modperl_tipool_config_t, set by the PerlInterp* sizing directives. */
  class PoolCfg {
    var start: int
    var max: int
    var maxSpare: int
    var minSpare: int
    var maxRequests: int

    constructor ()
      ensures start == 0 && max == 0 && maxSpare == 0 && minSpare == 0 && maxRequests == 0
    {
      start, max, maxSpare, minSpare, maxRequests := 0, 0, 0, 0, 0;
    }
  }

  /** modperl_interp_t: one interpreter handle with its BASE and PUTBACK flags. */
  class Interp {
    const perl: PerlId
    var isBase: bool
    var putback: bool

    constructor (perl: PerlId)
      ensures this.perl == perl && !isBase && !putback
    {
      this.perl := perl;
      isBase := false;
      putback := false;
    }
  }

  /** modperl_interp_pool_t: the parent interpreter and the idle list of its
      tipool.  The pool's own select/putback/growth policy is not part of
      this model; `initCalls` counts the times modperl_tipool_init ran on it. */
  class InterpPool {
    const parent: Interp
    var idle: seq<Interp>
    ghost var initCalls: nat

    constructor (parent: Interp)
      ensures this.parent == parent && idle == [] && initCalls == 0
    {
      this.parent := parent;
      idle := [];
      initCalls := 0;
    }
  }

  /** modperl_config_srv_t */
  class SrvConfig {
    var vars: Table
    var setEnv: Table
    var passEnv: Table
    var flags: Options
    var argv: seq<string>
    var perlModule: seq<string>
    var perlRequire: seq<string>
    var interpScope: InterpScope
    const poolCfg: PoolCfg
    var mip: Option<InterpPool>
    var modules: Option<map<string, ModuleRec>>
    var threadedMpm: bool

    constructor (poolCfg: PoolCfg)
      ensures this.poolCfg == poolCfg && mip == None && modules == None
      ensures vars == [] && setEnv == [] && passEnv == [] && flags == Options({})
      ensures argv == [] && perlModule == [] && perlRequire == []
      ensures interpScope == ScopeUndef && !threadedMpm
    {
      this.poolCfg := poolCfg;
      vars, setEnv, passEnv := [], [], [];
      flags := Options({});
      argv, perlModule, perlRequire := [], [], [];
      interpScope := ScopeUndef;
      mip := None;
      modules := None;
      threadedMpm := false;
    }

    predicate Enabled() reads this`flags { "Enable" in flags.on }   // MpSrvENABLED
    predicate Parent() reads this`flags { "Parent" in flags.on }    // MpSrvPARENT
    predicate Clone() reads this`flags { "Clone" in flags.on }      // MpSrvCLONE
  }

  /** modperl_config_dir_t */
  class DirConfig {
    var vars: Table
    var setEnv: Table
    var flags: Options
    var interpScope: InterpScope

    constructor ()
      ensures vars == [] && setEnv == [] && flags == Options({}) && interpScope == ScopeUndef
    {
      vars, setEnv := [], [];
      flags := Options({});
      interpScope := ScopeUndef;
    }
  }

  /** server_rec: its process's configuration pool (s->process->pconf) and
      mod_perl's per-server config (MP_dSCFG). */
  class ServerRec {
    const name: string
    const pconf: Pool
    const scfg: SrvConfig

    constructor (name: string, pconf: Pool, scfg: SrvConfig)
      ensures this.name == name && this.pconf == pconf && this.scfg == scfg
    {
      this.name := name;
      this.pconf := pconf;
      this.scfg := scfg;
    }
  }

  /** cmd_parms: the server and pool a directive is processed in, the
      container path (None outside <Directory>/<Location>/...), the
      command_rec being run, and the address the blessed
      Apache::CmdParms object stands for. */
  datatype CmdParms = CmdParms(server: ServerRec, pool: Pool, path: Option<string>,
                               cmd: CommandRec, addr: nat)
  {
    function CmdName(): string {
      if cmd.Command? then cmd.name else ""
    }

    /** modperl_bless_cmd_parms */
    function Blessed(): Sv {
      ObjectRef("Apache::CmdParms", addr)
    }
  }
}
