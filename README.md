# mod_perl configuration and dispatch, modelled in Dafny

This project models three core files of mod_perl 2.0, the Apache module that embeds a Perl interpreter in httpd:

- **Perl-defined Apache modules** (`modperl_module.c`). A Perl package that defines `@APACHE_MODULE_COMMANDS` becomes an Apache module.
  - Its directives dispatch into Perl methods through trampolines.
  - Each of its native per-dir and per-server config records (`modperl_module_cfg_t`) is paired with a Perl object. The pairing is kept in a per-interpreter pointer table.
  - `DIR_CREATE`/`SERVER_CREATE` create those objects and `DIR_MERGE`/`SERVER_MERGE` merge them.
  - Objects made outside server startup get a pool cleanup that evicts exactly their key.
  - Registering a module covers: building its command table, filling its module info, splicing it into Apache's module list right after mod_perl, and recording it in the server's module map.
- **mod_perl's own directives** (`modperl_cmd.c`): `PerlSwitches`, `PerlModule`, `PerlRequire`, `PerlSetVar`, `PerlAddVar`, `PerlSetEnv`, `PerlPassEnv`, `PerlOptions`, `<Perl key=val,...>`, `=pod`, `=cut`, `__END__`, `PerlInterpScope` and the `PerlInterp*` pool sizes.
- **Startup and response dispatch** (`mod_perl.c`):
  - `modperl_startup`, plus `modperl_init`, which gives each virtual host an interpreter and, with ithreads, an interpreter pool;
  - `modperl_init_clones`;
  - the `modperl` and `perl-script` response handlers.

## How the model is built

- **Perl.** The interpreter is an oracle value, `PerlRuntime.Perl`. It records:
  - which compiled subs resolve and which packages have which methods;
  - what a call returns: the number of values, the top value and `$@`;
  - the contents of package arrays and the value of Apache constants.

  A `PerlInterpreter` object logs the calls made into Perl, so contracts can say which callbacks ran.
- **Startup steps.** `perl_alloc`, `perl_parse` and the loading of PerlModule/PerlRequire lists are the oracle `ModPerlMain.Runtime`. Its arguments are the interpreter's identity and the list being loaded. The process logs each step as an `Event`.
- **Imperative code stays imperative.** It is written as classes with `modifies` clauses:
  - in `ModPerlTypes`: `PtrTable`, `Pool`, `CfgRec`, `SrvConfig`, `DirConfig`, `InterpPool`, `ModuleRec`;
  - in `ModPerlModule`: `ModuleChain`, Apache's module list;
  - in `ModPerlCmd`: `ConfigFile`, the line cursor of the configuration file;
  - in `ModPerlMain`: `Request`, the request-record fields the handlers touch.
- **Pure code is functions.** The argument classification, the field fetch, the keyword match and the message builders are written as functions.
- **Loops are methods checked against a specification function:**
  - `CommandTable` against `ModuleCommands`;
  - `ParseArgs` against `ParseArgsFrom`;
  - `Pod` against `PodEnd`;
  - `ModuleChain.Insert` against `InsertAfter`;
  - `InitVhosts` against `InitEvents`, `VhostShutdowns`, `MipAssigned` and `VhostOk` (which vhosts get through without an exit).
- **APR tables** (`AprTable`) are sequences of key/value pairs whose keys compare without case. `Set` replaces every entry of a key; `Add` appends one. APR's code is not part of this model, so these semantics are assumptions, and so is `ap_getword` (`ModPerlCmd.GetWord`).
- **`exit(1)`** in `modperl_startup` and `modperl_init` becomes a result value: `StartupFailure`, or `InitResult.ThreadedMpmWithoutIthreads`.

Two behaviours of the code a reader may not expect:

- A merge callback that dies is only logged. `$@` does not become a configuration error (`modperl_module.c:193-197`).
- A virtual host with PARENT set gets its PerlModule and PerlRequire lists loaded twice into its own interpreter: once inside `modperl_startup` and once more by `modperl_init`'s loop (`ModPerlMain.VhostModulesLoads`).

## Model

| member | source | states |
|---|---|---|
| ModPerlModule.ConfigTableSet | src/modules/perl/modperl_module.c:67-71 | the interpreter's global slot afterwards holds the given table |
| ModPerlModule.ConfigTableGet | src/modules/perl/modperl_module.c:54-93 | with `create`: returns the table already stored, or stores and returns a fresh one. Without `create`: changes nothing and returns the stored table or none |
| ModPerlModule.ConfigObjCleanupRun | src/modules/perl/modperl_module.c:105-118 | the cleanup deletes exactly its registered key and keeps every other entry |
| ModPerlModule.ConfigObjCleanupRegister | src/modules/perl/modperl_module.c:120-137 | appends exactly one eviction cleanup for (table, key) to the pool |
| ModPerlModule.ReleasePool | src/modules/perl/modperl_module.c:105-137 | releasing a pool removes from each table exactly the keys its eviction cleanups name, and nothing else |
| ModPerlModule.CreateObj | src/modules/perl/modperl_module.c:262-291 | the new object is the create method's single return value (NULL otherwise), or an error exactly when `$@` is set. With no create method it is a fresh blessed hash |
| ModPerlModule.GetObj | src/modules/perl/modperl_module.c:229-300 | hit: the same object, no error, no call, nothing changes. Miss: server and module info are set; on error nothing is stored; otherwise the object is stored under the record, with an eviction cleanup only outside startup |
| ModPerlModule.MergedObj | src/modules/perl/modperl_module.c:171-201 | the merged object is the merge method's single return value, or add's object when no merge method resolves. `$@` never enters the result |
| ModPerlModule.MergeAsWritten | src/modules/perl/modperl_module.c:139-210 | as written: NULL server dereferenced; when there is nothing to merge, add's SV is returned and nothing changes; otherwise a fresh copy of the source record maps to the merged object, with a cleanup only outside startup, and the merge method on (base, add) is the only Perl call, made only when it resolves |
| ModPerlModule.KindMergeAsWritten | src/modules/perl/modperl_module.c:212-224 | as written: the dir/srv wrappers dereference `base->minfo`, and it is NULL when base has seen no directive (nothing changes then); otherwise exactly MergeAsWritten's outcome with the kind's merge method: the server error or the short-circuit leave table, cleanups and calls alone, and a merge yields a fresh record with the source's server and minfo, mapped to the merged object, with a cleanup outside startup and the kind's merge method as the only Perl call |
| ModPerlModule.Merge | src/modules/perl/modperl_module.c:139-224 | corrected merge: when there is nothing to merge it returns the add record and nothing changes. Otherwise a fresh record carrying the source's server and minfo maps to the merged object, and the only Perl call is the merge method on (base, add) when it resolves. In every case the returned record maps to the right object |
| ModPerlModule.ShortCircuitReturnsObject | src/modules/perl/modperl_module.c:158-165 | the main server and a virtual host share one object from SERVER_CREATE, so base and add map to the same SV: the as-written merge hands Apache that SV pointer instead of a config record |
| ModPerlModule.MergeWithoutBaseDirectiveCrashes | src/modules/perl/modperl_module.c:212-217 | only the add record used the module: the as-written wrapper dereferences NULL `minfo` |
| ModPerlModule.MergeWithoutBaseDirectiveCorrected | src/modules/perl/modperl_module.c:139-165 | on the same input the corrected merge yields a record whose object is add's |
| ModPerlModule.PresentArgs | src/modules/perl/modperl_module.c:302-303 | one string SV is pushed per present argument, and nothing for a NULL one |
| ModPerlModule.PresentArgsContents | src/modules/perl/modperl_module.c:372-376 | each present argument is pushed as its own string, right after the present arguments before it, so one, two, three keep their order |
| ModPerlModule.TakeArgs | src/modules/perl/modperl_module.c:366-377 | the method's arguments start with the object and the blessed parms, then the present strings, and only those two when `args_how` is NO_ARGS |
| ModPerlModule.DirectiveReturn | src/modules/perl/modperl_module.c:380-394 | `$@` wins over everything; otherwise the result is DECLINE_CMD exactly when the method returned that one string, and success otherwise |
| ModPerlModule.Take123 | src/modules/perl/modperl_module.c:305-397 | the per-dir object is fetched or created, then the per-server one. A create error ends the directive with its `$@`. The table and pool cleanups are those of the get_obj steps. The result is DirectiveReturn of the method call on the per-dir object |
| ModPerlModule.FlagString | src/modules/perl/modperl_module.c:414-423 | `%d` of the flag into a two-byte buffer is exactly "1" or "0" |
| ModPerlModule.TrampolineArgs | src/modules/perl/modperl_module.c:399-437 | take1 passes one word, take2 two, take3 three; flag passes "1"/"0"; no_args passes none |
| ModPerlModule.Trampoline | src/modules/perl/modperl_module.c:399-437 | each trampoline's result is take123's create errors or DirectiveReturn on the words it forwards; the table and pool cleanups change exactly as take123's get_obj steps for the directory record and then the server record leave them |
| ModPerlModule.CmdLookup | src/modules/perl/modperl_module.c:447-479 | classifies args_how: TAKE1/ITERATE/RAW_ARGS to take1, TAKE2/ITERATE2/TAKE12 to take2, TAKE3/TAKE23/TAKE123/TAKE13 to take3, FLAG to flag, NO_ARGS to no_args, each an iff. Any other value fails |
| ModPerlModule.TrampolinePassesWords | src/modules/perl/modperl_module.c:399-479 | for every word-taking args_how, the Perl method receives the object, parms and first word; the one-word kinds pass nothing more, the two-word kinds then the second word if given, and the three-word kinds the given second and third words in order |
| ModPerlModule.CmdFetch | src/modules/perl/modperl_module.c:497-551 | an object is asked through its method, which must return one true value, and `$@` wins. A hash ref must have the key. Anything else is an error |
| ModPerlModule.BuildCommand | src/modules/perl/modperl_module.c:574-651 | an entry fails exactly when it has no name or its args_how has no trampoline, with those errors. On success the command carries the name, args_how, lookup's trampoline and the module |
| ModPerlModule.BuildCommandDefaults | src/modules/perl/modperl_module.c:590-650 | the defaults are args_how TAKE1, func = name, req_override OR_ALL, errmsg "<name> command"; data has no default |
| ModPerlModule.CommandsSuccess | src/modules/perl/modperl_module.c:574-651 | the list builds exactly when every entry builds |
| ModPerlModule.CommandsValues | src/modules/perl/modperl_module.c:574-651 | on success the k-th command comes from the k-th entry, in array order |
| ModPerlModule.CommandsFirstError | src/modules/perl/modperl_module.c:574-651 | a failure is the error of the first entry that fails, with every earlier entry good |
| ModPerlModule.CommandsPrefixFailure | src/modules/perl/modperl_module.c:574-651 | once a prefix fails, the whole list fails with the same error |
| ModPerlModule.CommandsStep | src/modules/perl/modperl_module.c:574-651 | one more entry: an earlier failure stays, a failing entry gives its error, a good one is appended |
| ModPerlModule.ModuleCommandsShape | src/modules/perl/modperl_module.c:566-658 | one command per entry, in order, then a single NULL-name terminator; every command dispatches through lookup's trampoline and belongs to the module |
| ModPerlModule.ModuleCommandsFailure | src/modules/perl/modperl_module.c:566-651 | a failed table is either the missing-@APACHE_MODULE_COMMANDS error or the error of the first entry that does not build, every earlier entry building |
| ModPerlModule.CommandTable | src/modules/perl/modperl_module.c:566-658 | the loop builds exactly ModuleCommands: a missing array is an error, the first bad entry stops the loop with its error |
| ModPerlModule.AddCmds | src/modules/perl/modperl_module.c:553-659 | on error `cmds` stays unset; on success it is the table |
| ModPerlModule.InsertAfterAt | src/modules/perl/modperl_module.c:661-680 | with mod_perl first found at i, the new module lands at i+1 and the rest keeps its order |
| ModPerlModule.InsertAfterAbsent | src/modules/perl/modperl_module.c:672-679 | without mod_perl in the list, the list is unchanged |
| ModPerlModule.InsertAfterContents | src/modules/perl/modperl_module.c:661-680 | the new list holds exactly the old modules plus the new one when mod_perl is present |
| ModPerlModule.ModuleChain.Insert | src/modules/perl/modperl_module.c:661-680 | the linked-list walk splices the module right after mod_perl (InsertAfter) |
| ModPerlModule.FetchMethod | src/modules/perl/modperl_module.c:684-707 | a method name is found exactly when the package has the method, as "Pkg::method" |
| ModPerlModule.InfoFor | src/modules/perl/modperl_module.c:740-752 | the module info holds the package name's length and the four looked-up callbacks |
| ModPerlModule.ModuleAdd | src/modules/perl/modperl_module.c:709-790 | a command-table error is returned before any insertion, cleanup or map change. On success: cmds set, module spliced after mod_perl, a removal cleanup registered, and `name` mapped to the module in the server's map |
| ModPerlCmd.PushHandlers | src/modules/perl/modperl_cmd.c:15-31 | creates the stack on first use, appends the handler name and never fails |
| ModPerlCmd.Switches | src/modules/perl/modperl_cmd.c:51-78 | "too late" exactly when Perl is running and the vhost is running, with argv unchanged; otherwise the switch is appended |
| ModPerlCmd.Modules | src/modules/perl/modperl_cmd.c:80-107 | not running: the name is queued on PerlModule, in order. Running: the vhost init error or the load's `$@`, with the list unchanged |
| ModPerlCmd.Requires | src/modules/perl/modperl_cmd.c:109-137 | as Modules, for PerlRequire |
| ModPerlCmd.VarsUpdate | src/modules/perl/modperl_cmd.c:139-172 | PerlSetVar leaves exactly [v] under the key (case-insensitively). PerlAddVar appends v. No other key changes |
| ModPerlCmd.HandleVars | src/modules/perl/modperl_cmd.c:139-172 | the dir vars are always updated; the server vars only outside a container; never fails |
| ModPerlCmd.SetEnv | src/modules/perl/modperl_cmd.c:174-197 | the dir SetEnv table is always set; the server's only outside a container; never fails |
| ModPerlCmd.PassEnv | src/modules/perl/modperl_cmd.c:199-213 | copies the variable from the environment into PassEnv when it is set there; otherwise nothing changes |
| ModPerlCmd.SetOptions | src/modules/perl/modperl_cmd.c:215-237 | a container sets the dir flags. At server level the server flags are set, a failure is retried on the dir flags, and the retry's success clears the error (an iff for success) |
| ModPerlCmd.GetWordJoin | src/modules/perl/modperl_cmd.c:256-258 | the assumed ap_getword reads back a word followed by one delimiter, or a whole line |
| ModPerlCmd.ParseArgsFrom | src/modules/perl/modperl_cmd.c:248-271 | any error is exactly "invalid args spec: <original>"; pairs stored earlier survive |
| ModPerlCmd.BadPieceFails | src/modules/perl/modperl_cmd.c:256-266 | a piece with an empty key or an empty value, at the end or before a ',', gives "invalid args spec: <original>" |
| ModPerlCmd.ParseJoinedThen | src/modules/perl/modperl_cmd.c:256-269 | good pairs followed by ',' are stored, and parsing goes on with what follows |
| ModPerlCmd.ParseStopsAtBadPiece | src/modules/perl/modperl_cmd.c:256-266 | after any run of good pairs, the first piece with an empty key or value fails the parse with "invalid args spec: <original>", whatever follows |
| ModPerlCmd.ParseArgs | src/modules/perl/modperl_cmd.c:248-271 | the cursor loop computes ParseArgsFrom of the whole string |
| ModPerlCmd.ParseOnePair | src/modules/perl/modperl_cmd.c:256-267 | a good key=value pair is stored and parsing resumes after its ',' |
| ModPerlCmd.ParseJoinedPairs | src/modules/perl/modperl_cmd.c:248-271 | parsing "k1=v1,k2=v2,..." of good pairs gives exactly those pairs, stored in order |
| ModPerlCmd.EmptyArgs | src/modules/perl/modperl_cmd.c:256 | an empty argument string is an empty hash, with no error |
| ModPerlCmd.LeadingCommaStops | src/modules/perl/modperl_cmd.c:256 | a leading ',' ends parsing at once with an empty hash |
| ModPerlCmd.LastIndex | src/modules/perl/modperl_cmd.c:277-291 | the index of the last '>' (strrchr), or none exactly when there is no '>' |
| ModPerlCmd.PerlSection | src/modules/perl/modperl_cmd.c:273-334 | the checks run in order: no '>' gives the unclosed-directive error first and is the only case where Perl is not started early (modperl_run); then vhost init; then the parse error as is; then "no <Perl> handler specified"; else the handler's outcome |
| ModPerlCmd.StrValues | src/modules/perl/modperl_cmd.c:318-321 | the Perl hash has exactly the parsed keys, each with its string value |
| ModPerlCmd.ConfigFile.GetLine | src/modules/perl/modperl_cmd.c:347-368 | the next line and the cursor moves by one, or none at the end of the file |
| ModPerlCmd.PodEnd | src/modules/perl/modperl_cmd.c:347-354 | reading stops just past the first "=cut" or httpd/apache "=over" line, or at the end of the file |
| ModPerlCmd.PodCut | src/modules/perl/modperl_cmd.c:359-362 | =cut outside a POD block fails with "=cut without =pod" whatever its argument |
| ModPerlCmd.Pod | src/modules/perl/modperl_cmd.c:339-357 | an unknown format (with the swapped strstr as written) gives "Unknown =back format" and reads nothing; otherwise it returns no error and reads up to PodEnd |
| ModPerlCmd.End | src/modules/perl/modperl_cmd.c:364-373 | reads every remaining line and never fails |
| ModPerlCmd.ScopeSwitchIsKeywordMatch | src/modules/perl/modperl_cmd.c:448-484 | the fall-through switch accepts exactly handler, subrequest and request, case-insensitively, and connection only outside a container. Anything else gets the context's usage string |
| ModPerlCmd.InterpScopeCmd | src/modules/perl/modperl_cmd.c:448-484 | on a keyword it sets the dir scope in a container, else the server scope, and nothing else; otherwise the usage string with both scopes unchanged |
| ModPerlCmd.DigitPrefix | src/modules/perl/modperl_cmd.c:491 | the digits atoi reads are the longest digit prefix: digits only, ending at the end of the string or at a non-digit |
| ModPerlCmd.AtoiOfIntToString | src/modules/perl/modperl_cmd.c:491 | atoi reads back every integer printed in decimal |
| ModPerlCmd.SetPoolField | src/modules/perl/modperl_cmd.c:486-501 | exactly the named pool-sizing field becomes atoi(arg), the others are unchanged, and it never fails |
| ModPerlMain.Startup | src/modules/perl/mod_perl.c:36-100 | alloc, parse, PerlModule and PerlRequire failures are fatal, in that order, and success is an iff over the four steps. On success: one interpreter constructed, modules loaded before requires, and a shutdown cleanup only without ithreads |
| ModPerlMain.ParentGetsOwnPerl | src/modules/perl/mod_perl.c:131-143 | a PARENT vhost's interpreter is newer than that of any earlier server, the base server's included |
| ModPerlMain.InitStartsOnePerParent | src/modules/perl/mod_perl.c:131-150 | the vhost loop constructs exactly one interpreter per PARENT vhost |
| ModPerlMain.VhostModulesLoads | src/modules/perl/mod_perl.c:138-150 | a PARENT vhost gets its PerlModule and PerlRequire lists loaded twice, any other vhost once |
| ModPerlMain.InterpInit | src/modules/perl/mod_perl.c:125-165 | a fresh pool around the chosen interpreter, not yet BASE, with no idle clone |
| ModPerlMain.InitVhost | src/modules/perl/mod_perl.c:132-181 | one vhost: its own interpreter when PARENT, else the base one; lists loaded into it. It succeeds exactly when VhostOk holds: the vhost's own startup succeeds (under PARENT) and its PerlModule and PerlRequire lists load; any failure is the exit of lines 139 and 145-150. With ithreads: disabled gets no pool; PARENT or CLONE gets its own, marked BASE only for PARENT; otherwise it keeps its pool or shares the base's |
| ModPerlMain.InitVhosts | src/modules/perl/mod_perl.c:131-183 | the whole loop: no exit exactly when every vhost satisfies VhostOk on its interpreter; an exit comes from the first vhost that does not, all earlier ones having got through. On success: interpreters numbered in startup order, events and cleanups as InitEvents/VhostShutdowns, pools as MipAssigned |
| ModPerlMain.Init | src/modules/perl/mod_perl.c:102-184 | exits exactly for a threaded MPM without ithreads; skips a disabled base; both without starting any interpreter. Otherwise: base interpreter first, BASE pool with ithreads, then each vhost as InitVhosts. InitDone exactly when the base startup succeeds and every vhost satisfies VhostOk; StartupExit exactly when mod_perl is enabled and one of those steps fails |
| ModPerlMain.TipoolInit | src/modules/perl/mod_perl.c:227 | the assumed pool init leaves the idle list non-empty |
| ModPerlMain.FirstWithoutPool | src/modules/perl/mod_perl.c:199-210 | the index of the first server without a pool, every earlier one having a pool |
| ModPerlMain.InitClonesAsWritten | src/modules/perl/mod_perl.c:187-230 | as written: without a threaded MPM it returns at once and no pool changes; otherwise it dereferences NULL at the first server without a pool, after giving the pools of the servers before it an idle clone (each empty one initialised once), and no other pool changes |
| ModPerlMain.InitClones | src/modules/perl/mod_perl.c:187-230 | corrected: without a threaded MPM no pool changes. Otherwise every pool ends non-empty; a pool already filled is untouched; an empty one is initialised exactly once, even when shared |
| ModPerlMain.InitWithDisabledVhost | src/modules/perl/mod_perl.c:152-157 | a threaded build with a disabled vhost: after modperl_init the base has a pool and the vhost none |
| ModPerlMain.DisabledVhostCrashesClones | src/modules/perl/mod_perl.c:152-210 | init_clones as written then dereferences the vhost's NULL pool |
| ModPerlMain.HandlerAfter | src/modules/perl/mod_perl.c:431-433 | DECLINED with a content type hands r->handler to the content type; any other case leaves it |
| ModPerlMain.ResponseHandlerRun | src/modules/perl/mod_perl.c:405-440 | init, then the handler, then the DECLINED fallback; the status passes through; flushes only when `finish` is set |
| ModPerlMain.ResponseHandler | src/modules/perl/mod_perl.c:442-449 | declines anything but "modperl" and changes nothing; otherwise runs once and flushes once |
| ModPerlMain.ResponseHandlerCgi | src/modules/perl/mod_perl.c:451-501 | declines anything but "perl-script". With PUTBACK: rcfg->interp holds the interpreter during the run, then it is unselected and cleared. The flush comes exactly once, last. PARSE_HEADERS sets header_parse |
| ModPerlMain.CgiPutbackOrder | src/modules/perl/mod_perl.c:489-498 | for the event log ResponseHandlerCgi ensures in the PUTBACK run: the run flushes once, last, right after the unselect, and the handler runs once while holding the interpreter |

## Left out

- I/O and environment tying around the cgi handler (`modperl_io_tie_*`, `modperl_env_request_tie`) is not modelled. It is Perl-side plumbing with no effect on the state the handlers keep.
- The output buffer's internals (`modperl_wbucket_flush`) are left out. A flush is one `Flushed` event.
- Left out as unrelated to configuration and dispatch:
  - hook and filter registration (`modperl_register_hooks`);
  - `ap_add_version_component`;
  - the MP_TRACE and gtop tracing;
  - the `#if 0` `sys_init`/`sys_term`.
- The interpreter pool's own code is not part of this model:
  - `modperl_interp_select` is an input (`selected`);
  - `modperl_interp_unselect` is an event;
  - `modperl_interp_init` (`InterpInit`) and `modperl_tipool_init` (`TipoolInit`) are stand-ins. Their contracts are assumptions: a new pool with no idle clone, and a pool whose idle list is then non-empty.

  No pool invariant (max, spares, max_requests) is claimed.
- Perl itself is an oracle: `call_sv`, `call_method`, `perl_alloc`/`parse`/`run`, method lookup, `get_av`, `$@`, blessing and reference counts.
- The oracle's value count is not tied to the calling context: Perl always returns one value to a `G_SCALAR` call, but the model keeps the source's `count == 1` tests as written, so it also covers counts Perl never returns to such a call.
- Apache calls that are not part of this model:
  - `modperl_options_set` is a parameter of `SetOptions`;
  - `modperl_callback` is a parameter of `PerlSection`, and the response handler's status is an input;
  - `modperl_run` is not part of this model. `PerlSection` only reports that it is called (`startsPerl`); a later `PerlSwitches`, `PerlModule` or `PerlRequire` then sees `running` set, which the caller passes in;
  - `modperl_config_apply_PerlModule`/`PerlRequire` are the `Runtime` oracle;
  - `modperl_init_vhost` and `modperl_require_module`/`modperl_require_file` are inputs (`vhostInitOk`, `loadError`).
- APR tables and hashes, and `ap_getword`, are library code. Their behaviour is assumed (see `AprTable` and `ModPerlCmd.GetWord`).
- `modperl_svptr_table_*` is a map in `PtrTable`.
- The `getenv` behind `PerlPassEnv` is an input map. The platform-specific `ENV_IS_CASELESS` upper-casing is not modelled.
- `ModuleAdd` omits the following because their code is not part of this model:
  - `ap_add_loaded_module`;
  - `ap_single_module_configure`;
  - the threaded `modperl_interp_pool_set` hack;
  - the choice of interpreter by `scfg->mip->parent`.
- `modperl_module_remove` is a `ModuleRemove` cleanup value. Running it is Apache's `ap_remove_loaded_module`.
- `modperl_cmd_trace`, `init_handlers`, `load_module` and the FLAG directives (`taint_check`, `warn`, `send_header`, `setup_env`) are not modelled. They are outside the configuration and dispatch paths modelled here.
- `ModPerlCmd.Atoi`: integers are unbounded, so atoi's `int` overflow on very long digit strings is not modelled.
- `ConfigFile.GetLine`: the `MAX_STRING_LEN` line buffer is not modelled. A configuration line is read whole.
- `ModPerlMain.Init`: the base server and virtual hosts are a sequence (the `next` chain). Which servers have PARENT set is also passed as a ghost sequence that must match their flags.
- `modperl_config_srv_argv_init` is not modelled. The PerlSwitches list stands for argv.
- `exit(1)` is not process termination. It is a result value that ends `Init`.
- `ModPerlModule.Take123`: the `cfg->server`/`cfg->minfo` writes and the exact call log are stated only through `GetObj`'s contract. The `MP_dSCFG` lookup of the server record is an input (`srvCfg`).
- `ModPerlModule.Trampoline`: as for `Take123`, the `cfg->server`/`cfg->minfo` writes and the call log are stated only through `GetObj`'s contract.

## Findings

| source | as written | input that shows it | evidently intended | confidence | as-written member | corrected member |
|---|---|---|---|---|---|---|
| src/modules/perl/modperl_module.c:163-165 | when base has no object or the same object as add, the merge returns `add_obj`, an SV pointer, where Apache expects a config record | a SERVER_CREATE that returns one shared object for the main server and a virtual host, so `base_obj == add_obj` at line 163 | return `addv`, the add record itself | high; not executed | ModPerlModule.ShortCircuitReturnsObject | ModPerlModule.Merge |
| src/modules/perl/modperl_module.c:212-224 | the dir/srv merge wrappers read `base->minfo->dir_merge`; `minfo` is NULL until a directive of the module is seen in base | a module used only inside a `<Location>` block (add has `minfo`, base does not) | take the merge method from the record that has module info (base, else add) | high; not executed | ModPerlModule.MergeWithoutBaseDirectiveCrashes | ModPerlModule.MergeWithoutBaseDirectiveCorrected |
| src/modules/perl/mod_perl.c:152-210 | init_clones reads `scfg->mip->tipool->idle` for every server, but modperl_init sets `mip` to NULL for a disabled vhost | threaded MPM, base enabled, one vhost with `PerlOptions -Enable` | skip servers without a pool | high; not executed | ModPerlMain.DisabledVhostCrashesClones | ModPerlMain.InitClones |
