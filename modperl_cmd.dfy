/** The handlers of mod_perl's own configuration directives: PerlSwitches,
    PerlModule, PerlRequire, PerlSetVar, PerlAddVar, PerlSetEnv,
    PerlPassEnv, PerlOptions, <Perl >, =pod, =cut, __END__,
    PerlInterpScope and the PerlInterp* pool sizes, and the helper that
    pushes a handler name onto a handler stack. */
module ModPerlCmd {
  import opened Wrappers
  import opened PerlRuntime
  import opened AprTable
  import opened ModPerlTypes

  /** Apache's OK status. */
  const OK := 0

  // ---------------------------------------------------------------------
  // Message builders.

  /** modperl_cmd_unclosed_directive */
  function UnclosedDirective(name: string): string {
    name + "> directive missing closing '>'"
  }

  /** modperl_cmd_too_late */
  function TooLate(name: string): string {
    "mod_perl already running, too late for " + name
  }

  // ---------------------------------------------------------------------
  // Handler stacks.

  /** A handler stack slot (MpAV **): unset until the first handler is
      pushed; the handlers are kept by name. */
  class HandlerSlot {
    var handlers: Option<seq<string>>

    constructor ()
      ensures handlers == None
    {
      handlers := None;
    }
  }

  /** modperl_cmd_push_handlers: creates the stack on first use, appends the
      handler and always succeeds. */
  method PushHandlers(slot: HandlerSlot, name: string) returns (err: Option<string>)
    modifies slot
    ensures err == None
    ensures slot.handlers == Some(old(slot.handlers).GetOr([]) + [name])
  {
    if slot.handlers.None? {
      slot.handlers := Some([]);
    }
    slot.handlers := Some(slot.handlers.value + [name]);
    err := None;
  }

  // ---------------------------------------------------------------------
  // PerlSwitches, PerlModule, PerlRequire.

  /** modperl_vhost_is_running: with ithreads, true for a virtual host that
      already has an interpreter pool; without ithreads, always true. */
  predicate VhostIsRunning(ithreads: bool, s: ServerRec, mainServer: ServerRec)
    reads s.scfg
  {
    !ithreads || (s != mainServer && s.scfg.mip.Some?)
  }

  /** PerlSwitches: too late once Perl runs for this server; otherwise the
      switch is appended to the server's argv. */
  method Switches(parms: CmdParms, arg: string, running: bool, ithreads: bool, mainServer: ServerRec)
    returns (err: Option<string>)
    modifies parms.server.scfg`argv
    ensures var late := running && VhostIsRunning(ithreads, parms.server, mainServer);
      (late ==> err == Some(TooLate(parms.CmdName())) &&
                parms.server.scfg.argv == old(parms.server.scfg.argv)) &&
      (!late ==> err == None && parms.server.scfg.argv == old(parms.server.scfg.argv) + [arg])
  {
    var scfg := parms.server.scfg;
    if running && VhostIsRunning(ithreads, parms.server, mainServer) {
      return Some(TooLate(parms.CmdName()));
    }
    scfg.argv := scfg.argv + [arg];
    err := None;
  }

  /** PerlModule.  Before Perl runs, the module name is queued on the
      server's PerlModule list.  Once it runs, the virtual host is
      initialised first (`vhostInitOk` is its outcome) and the module is
      loaded at once (`loadError` is $@ when that fails); the list is left
      alone. */
  method Modules(parms: CmdParms, arg: string, running: bool, vhostInitOk: bool,
                 loadError: Option<string>)
    returns (err: Option<string>)
    modifies parms.server.scfg`perlModule
    ensures running ==> parms.server.scfg.perlModule == old(parms.server.scfg.perlModule)
    ensures running && !vhostInitOk ==> err == Some("init mod_perl vhost failed")
    ensures running && vhostInitOk ==> err == loadError
    ensures !running ==>
      err == None && parms.server.scfg.perlModule == old(parms.server.scfg.perlModule) + [arg]
  {
    var scfg := parms.server.scfg;
    if running && !vhostInitOk {
      return Some("init mod_perl vhost failed");
    }
    if running {
      if loadError.Some? {
        return loadError;
      }
    } else {
      scfg.perlModule := scfg.perlModule + [arg];
    }
    err := None;
  }

  /** PerlRequire: as PerlModule, for files and the PerlRequire list. */
  method Requires(parms: CmdParms, arg: string, running: bool, vhostInitOk: bool,
                  loadError: Option<string>)
    returns (err: Option<string>)
    modifies parms.server.scfg`perlRequire
    ensures running ==> parms.server.scfg.perlRequire == old(parms.server.scfg.perlRequire)
    ensures running && !vhostInitOk ==> err == Some("init mod_perl vhost failed")
    ensures running && vhostInitOk ==> err == loadError
    ensures !running ==>
      err == None && parms.server.scfg.perlRequire == old(parms.server.scfg.perlRequire) + [arg]
  {
    var scfg := parms.server.scfg;
    if running && !vhostInitOk {
      return Some("init mod_perl vhost failed");
    }
    if running {
      if loadError.Some? {
        return loadError;
      }
    } else {
      scfg.perlRequire := scfg.perlRequire + [arg];
    }
    err := None;
  }

  // ---------------------------------------------------------------------
  // PerlSetVar, PerlAddVar, PerlSetEnv, PerlPassEnv.

  /** The table update a PerlSetVar / PerlAddVar directive makes: PerlSetVar
      replaces every value of the key with the new one, PerlAddVar appends
      the new one; no other key changes. */
  function VarsUpdate(name: string, t: Table, k: string, v: string): (r: Table)
    ensures forall k' :: GetAll(r, k') == (if CaseEq(k, k') then (if name == "PerlSetVar" then [v] else GetAll(t, k') + [v]) else GetAll(t, k'))
  {
    if name == "PerlSetVar" then
      SetGetAllEvery(t, k, v);
      Set(t, k, v)
    else
      AddGetAllEvery(t, k, v);
      Add(t, k, v)
  }

  lemma SetGetAllEvery(t: Table, k: string, v: string)
    ensures forall k' :: GetAll(Set(t, k, v), k') == (if CaseEq(k, k') then [v] else GetAll(t, k'))
  {
    forall k' {
      SetGetAll(t, k, v, k');
    }
  }

  lemma AddGetAllEvery(t: Table, k: string, v: string)
    ensures forall k' :: GetAll(Add(t, k, v), k') == GetAll(t, k') + (if CaseEq(k, k') then [v] else [])
  {
    forall k' {
      AddGetAll(t, k, v, k');
    }
  }

  /** modperl_cmd_handle_vars (PerlSetVar, PerlAddVar): the directory
      config's vars always; the server's as well outside a container, so
      that they are visible through the server's dir_config. */
  method HandleVars(parms: CmdParms, dcfg: DirConfig, arg1: string, arg2: string)
    returns (err: Option<string>)
    modifies dcfg`vars, parms.server.scfg`vars
    ensures err == None
    ensures dcfg.vars == VarsUpdate(parms.CmdName(), old(dcfg.vars), arg1, arg2)
    ensures parms.server.scfg.vars ==
      if parms.path.None? then VarsUpdate(parms.CmdName(), old(parms.server.scfg.vars), arg1, arg2)
      else old(parms.server.scfg.vars)
  {
    var scfg := parms.server.scfg;
    dcfg.vars := VarsUpdate(parms.CmdName(), dcfg.vars, arg1, arg2);
    if parms.path.None? {
      scfg.vars := VarsUpdate(parms.CmdName(), scfg.vars, arg1, arg2);
    }
    err := None;
  }

  /** PerlSetEnv: sets the variable in the directory config and, outside a
      container, in the server config (from which it reaches environ). */
  method SetEnv(parms: CmdParms, dcfg: DirConfig, arg1: string, arg2: string)
    returns (err: Option<string>)
    modifies dcfg`setEnv, parms.server.scfg`setEnv
    ensures err == None
    ensures dcfg.setEnv == Set(old(dcfg.setEnv), arg1, arg2)
    ensures parms.server.scfg.setEnv ==
      if parms.path.None? then Set(old(parms.server.scfg.setEnv), arg1, arg2)
      else old(parms.server.scfg.setEnv)
  {
    var scfg := parms.server.scfg;
    if parms.path.None? {
      scfg.setEnv := Set(scfg.setEnv, arg1, arg2);
    }
    dcfg.setEnv := Set(dcfg.setEnv, arg1, arg2);
    err := None;
  }

  /** PerlPassEnv: copies the variable from the process environment `env`
      into the server's PassEnv table when it is set there; otherwise does
      nothing.  Never fails. */
  method PassEnv(parms: CmdParms, arg: string, env: map<string, string>)
    returns (err: Option<string>)
    modifies parms.server.scfg`passEnv
    ensures err == None
    ensures parms.server.scfg.passEnv ==
      if arg in env then Set(old(parms.server.scfg.passEnv), arg, env[arg])
      else old(parms.server.scfg.passEnv)
  {
    var scfg := parms.server.scfg;
    if arg in env {
      scfg.passEnv := Set(scfg.passEnv, arg, env[arg]);
    }
    err := None;
  }

  // ---------------------------------------------------------------------
  // PerlOptions.

  /** modperl_options_set: the options after applying one PerlOptions word,
      and an error when the word is not valid for that kind of options. */
  type OptionsSetter = (Options, string) -> (Options, Option<string>)

  /** PerlOptions: in a container the directory's flags; outside, the
      server's flags, and when the word is not a server option it is
      retried on the directory flags (a per-directory option given at
      server level), whose success clears the error. */
  method SetOptions(parms: CmdParms, dcfg: DirConfig, arg: string, optionsSet: OptionsSetter)
    returns (err: Option<string>)
    modifies dcfg`flags, parms.server.scfg`flags
    ensures parms.path.Some? ==>
      var o := optionsSet(old(dcfg.flags), arg);
      dcfg.flags == o.0 && err == o.1 && parms.server.scfg.flags == old(parms.server.scfg.flags)
    ensures parms.path.None? ==>
      var o := optionsSet(old(parms.server.scfg.flags), arg);
      var retry := optionsSet(old(dcfg.flags), arg);
      parms.server.scfg.flags == o.0 &&
      (o.1.None? ==> err == None && dcfg.flags == old(dcfg.flags)) &&
      (o.1.Some? ==> dcfg.flags == retry.0 && err == (if retry.1.None? then None else o.1))
    ensures err == None <==>
      (if parms.path.Some? then optionsSet(old(dcfg.flags), arg).1.None?
       else optionsSet(old(parms.server.scfg.flags), arg).1.None? ||
            optionsSet(old(dcfg.flags), arg).1.None?)
  {
    var scfg := parms.server.scfg;
    var isPerDir := parms.path.Some?;
    var o: (Options, Option<string>);
    if isPerDir {
      o := optionsSet(dcfg.flags, arg);
      dcfg.flags := o.0;
    } else {
      o := optionsSet(scfg.flags, arg);
      scfg.flags := o.0;
    }
    err := o.1;
    if err.Some? && !isPerDir {
      var retry := optionsSet(dcfg.flags, arg);
      dcfg.flags := retry.0;
      if retry.1.None? {
        err := None;
      }
    }
  }

  // ---------------------------------------------------------------------
  // The argument list of <Perl key=val,...>.

  /** The length of the word before the first `stop`. */
  function WordEnd(s: string, stop: char): (i: nat)
    ensures i <= |s| && (i < |s| ==> s[i] == stop)
    ensures forall j :: 0 <= j < i ==> s[j] != stop
  {
    if s == [] || s[0] == stop then 0 else 1 + WordEnd(s[1..], stop)
  }

  /** What is left after skipping any number of `stop` characters. */
  function SkipStops(s: string, stop: char): (r: string)
    ensures |r| <= |s| && r == s[|s| - |r|..]
    ensures r == [] || r[0] != stop
  {
    if s != [] && s[0] == stop then SkipStops(s[1..], stop) else s
  }

  /** ap_getword / ap_getword_nc, which are Apache's and not part of this
      model: the word up to the first `stop`, and the rest of the line past
      that `stop` and any that directly follow it. */
  function GetWord(s: string, stop: char): (r: (string, string))
    ensures stop !in r.0
    ensures |r.0| <= |s| && r.0 == s[..|r.0|]
    ensures r.1 == [] || r.1[0] != stop
    ensures |r.1| <= |s| - |r.0|
  {
    var i := WordEnd(s, stop);
    (s[..i], SkipStops(s[i..], stop))
  }

  /** A word is read back intact when a single `stop`, or the end of the
      line, follows it. */
  lemma GetWordJoin(w: string, stop: char, rest: string)
    requires stop !in w
    requires rest == [] || rest[0] != stop
    ensures GetWord(w + [stop] + rest, stop) == (w, rest)
    ensures GetWord(w, stop) == (w, [])
  {
    GetWordFollowed(w, stop, rest);
    GetWordWhole(w, stop);
  }

  lemma GetWordFollowed(w: string, stop: char, rest: string)
    requires stop !in w
    requires rest == [] || rest[0] != stop
    ensures GetWord(w + [stop] + rest, stop) == (w, rest)
  {
    var s := w + [stop] + rest;
    WordEndAt(s, stop, w);
    var tail := s[|w|..];
    assert tail == [stop] + rest;
    assert tail[1..] == rest;
    assert SkipStops(tail, stop) == SkipStops(rest, stop);
  }

  lemma GetWordWhole(w: string, stop: char)
    requires stop !in w
    ensures GetWord(w, stop) == (w, [])
  {
    WordEndAt(w, stop, w);
  }

  lemma {:induction false} WordEndAt(s: string, stop: char, w: string)
    requires stop !in w && |w| <= |s| && s[..|w|] == w
    requires |w| == |s| || s[|w|] == stop
    ensures WordEnd(s, stop) == |w|
    decreases |w|
  {
    if w != [] {
      assert s[0] == w[0];
      assert s[1..][..|w| - 1] == w[1..];
      WordEndAt(s[1..], stop, w[1..]);
    }
  }

  /** modperl_cmd_parse_args from the cursor `args` on, with the pairs
      stored so far in `hv`: the hash once an empty piece (or the end) is
      reached, or "invalid args spec: <orig>" at the first piece with an
      empty key or value.  A later key replaces an earlier one. */
  function ParseArgsFrom(args: string, orig: string, hv: map<string, string>): (r: Result<map<string, string>, string>)
    ensures r.Failure? ==> r.error == "invalid args spec: " + orig
    ensures r.Success? ==> hv.Keys <= r.value.Keys
    decreases |args|
  {
    var (pair, rest) := GetWord(args, ',');
    if pair == [] then Success(hv)
    else
      var (key, val) := GetWord(pair, '=');
      if key == [] || val == [] then Failure("invalid args spec: " + orig)
      else ParseArgsFrom(rest, orig, hv[key := val])
  }

  /** modperl_cmd_parse_args: the loop that walks the argument string. */
  method ParseArgs(args: string) returns (r: Result<map<string, string>, string>)
    ensures r == ParseArgsFrom(args, args, map[])
  {
    var cursor := args;
    var hv: map<string, string> := map[];
    while true
      invariant ParseArgsFrom(cursor, args, hv) == ParseArgsFrom(args, args, map[])
      decreases |cursor|
    {
      var (pair, rest) := GetWord(cursor, ',');
      if pair == [] {
        return Success(hv);
      }
      var (key, val) := GetWord(pair, '=');
      if key == [] || val == [] {
        return Failure("invalid args spec: " + args);
      }
      hv := hv[key := val];
      cursor := rest;
    }
  }

  /** A well-formed key=value pair: a non-empty key without ',' or '=', and
      a non-empty value without ',' that does not start with '='. */
  predicate GoodPair(p: (string, string)) {
    p.0 != [] && ',' !in p.0 && '=' !in p.0 &&
    p.1 != [] && ',' !in p.1 && p.1[0] != '='
  }

  /** key1=val1,key2=val2,... */
  function JoinPairs(pairs: seq<(string, string)>): string
    decreases |pairs|
  {
    if pairs == [] then ""
    else if |pairs| == 1 then pairs[0].0 + "=" + pairs[0].1
    else pairs[0].0 + "=" + pairs[0].1 + "," + JoinPairs(pairs[1..])
  }

  /** The hash of a list of pairs stored in order over `hv`. */
  function StorePairs(hv: map<string, string>, pairs: seq<(string, string)>): map<string, string>
    decreases |pairs|
  {
    if pairs == [] then hv else StorePairs(hv[pairs[0].0 := pairs[0].1], pairs[1..])
  }

  /** One well-formed pair followed by "," (or by the end) is stored and
      parsing goes on after it. */
  lemma ParseOnePair(k: string, v: string, rest: string, orig: string, hv: map<string, string>)
    requires GoodPair((k, v))
    requires rest == [] || rest[0] != ','
    ensures ParseArgsFrom(k + "=" + v + "," + rest, orig, hv) == ParseArgsFrom(rest, orig, hv[k := v])
    ensures ParseArgsFrom(k + "=" + v, orig, hv) == ParseArgsFrom("", orig, hv[k := v])
  {
    var piece := k + "=" + v;
    assert piece == k + ['='] + v;
    assert ',' !in piece;
    GetWordJoin(k, '=', v);
    GetWordJoin(piece, ',', rest);
    assert k + "=" + v + "," + rest == piece + [','] + rest;
  }

  /** The joined pairs after the first begin with a key, never with ','. */
  lemma JoinPairsStart(pairs: seq<(string, string)>)
    requires forall k :: 0 <= k < |pairs| ==> GoodPair(pairs[k])
    ensures pairs != [] ==> JoinPairs(pairs) != [] && JoinPairs(pairs)[0] != ','
  {
    if pairs != [] {
      var s := JoinPairs(pairs);
      assert s[0] == pairs[0].0[0];
    }
  }

  /** Parsing a joined list of well-formed pairs gives back exactly those
      pairs. */
  lemma {:induction false} ParseJoinedPairs(pairs: seq<(string, string)>, orig: string, hv: map<string, string>)
    requires forall k :: 0 <= k < |pairs| ==> GoodPair(pairs[k])
    ensures ParseArgsFrom(JoinPairs(pairs), orig, hv) == Success(StorePairs(hv, pairs))
    decreases |pairs|
  {
    if pairs == [] {
      EmptyArgs(orig, hv);
    } else if |pairs| == 1 {
      ParseOnePair(pairs[0].0, pairs[0].1, "", orig, hv);
      EmptyArgs(orig, hv[pairs[0].0 := pairs[0].1]);
      assert pairs[1..] == [];
    } else {
      var rest := JoinPairs(pairs[1..]);
      JoinPairsStart(pairs[1..]);
      ParseOnePair(pairs[0].0, pairs[0].1, rest, orig, hv);
      ParseJoinedPairs(pairs[1..], orig, hv[pairs[0].0 := pairs[0].1]);
    }
  }

  lemma EmptyArgs(orig: string, hv: map<string, string>)
    ensures ParseArgsFrom("", orig, hv) == Success(hv)
  {
    assert GetWord("", ',').0 == "";
  }

  /** A leading ',' makes the first piece empty, so nothing after it is
      read and no error is reported. */
  lemma LeadingCommaStops(s: string)
    ensures ParseArgsFrom("," + s, "," + s, map[]) == Success(map[])
  {
    assert GetWord("," + s, ',').0 == [];
  }

  /** A piece parse_args rejects: non-empty, without ',', and either
      beginning with '=' (so the key is empty) or holding only '=' from its
      first '=' on, if it has one (so the value is empty). */
  predicate BadPiece(p: string) {
    p != [] && ',' !in p &&
    (p[0] == '=' || forall i, j :: 0 <= i <= j < |p| && p[i] == '=' ==> p[j] == '=')
  }

  /** A rejected piece, at the end or before a ',', fails the parse. */
  lemma BadPieceFails(bad: string, tail: string, orig: string, hv: map<string, string>)
    requires BadPiece(bad)
    requires tail == [] || tail[0] != ','
    ensures ParseArgsFrom(bad, orig, hv) == Failure("invalid args spec: " + orig)
    ensures ParseArgsFrom(bad + "," + tail, orig, hv) == Failure("invalid args spec: " + orig)
  {
    GetWordFollowed(bad, ',', tail);
    GetWordWhole(bad, ',');
    assert bad + "," + tail == bad + [','] + tail;
  }

  /** Well-formed pairs followed by ',' are stored, and parsing goes on
      with what follows them. */
  lemma {:induction false} ParseJoinedThen(pairs: seq<(string, string)>, x: string, orig: string, hv: map<string, string>)
    requires |pairs| >= 1 && forall k :: 0 <= k < |pairs| ==> GoodPair(pairs[k])
    requires x == [] || x[0] != ','
    ensures ParseArgsFrom(JoinPairs(pairs) + "," + x, orig, hv) == ParseArgsFrom(x, orig, StorePairs(hv, pairs))
    decreases |pairs|
  {
    var k, v := pairs[0].0, pairs[0].1;
    if |pairs| == 1 {
      ParseOnePair(k, v, x, orig, hv);
      assert pairs[1..] == [];
    } else {
      var rest := JoinPairs(pairs[1..]) + "," + x;
      JoinPairsStart(pairs[1..]);
      assert JoinPairs(pairs) + "," + x == k + "=" + v + "," + rest;
      ParseOnePair(k, v, rest, orig, hv);
      ParseJoinedThen(pairs[1..], x, orig, hv[k := v]);
    }
  }

  /** `x` after the joined pairs and a ',' (or alone when there are none). */
  function Prefixed(pairs: seq<(string, string)>, x: string): string {
    if pairs == [] then x else JoinPairs(pairs) + "," + x
  }

  /** After any run of well-formed pairs, the first piece with an empty key
      or value ends the parse with "invalid args spec: <orig>", whatever
      follows it. */
  lemma ParseStopsAtBadPiece(pairs: seq<(string, string)>, bad: string, tail: string,
                             orig: string, hv: map<string, string>)
    requires forall k :: 0 <= k < |pairs| ==> GoodPair(pairs[k])
    requires BadPiece(bad)
    requires tail == [] || tail[0] != ','
    ensures ParseArgsFrom(Prefixed(pairs, bad), orig, hv) == Failure("invalid args spec: " + orig)
    ensures ParseArgsFrom(Prefixed(pairs, bad + "," + tail), orig, hv) == Failure("invalid args spec: " + orig)
  {
    if pairs == [] {
      BadPieceFails(bad, tail, orig, hv);
    } else {
      BadPieceFails(bad, tail, orig, StorePairs(hv, pairs));
      ParseJoinedThen(pairs, bad, orig, hv);
      ParseJoinedThen(pairs, bad + "," + tail, orig, hv);
    }
  }


  // ---------------------------------------------------------------------
  // <Perl handler=...> sections.

  /** The index of the last `c` in `s` (strrchr). */
  function LastIndex(s: string, c: char): (r: Option<nat>)
    ensures r.Some? ==> r.value < |s| && s[r.value] == c &&
                        forall j :: r.value < j < |s| ==> s[j] != c
    ensures r.None? ==> c !in s
  {
    if s == [] then None
    else if s[|s| - 1] == c then Some(|s| - 1)
    else LastIndex(s[..|s| - 1], c)
  }

  /** What modperl_callback reports for the <Perl> handler: its status and
      $@ when that is true. */
  datatype HandlerOutcome = HandlerOutcome(status: int, errsv: Option<string>)

  /** The result of a <Perl> section whose handler ran, from its outcome. */
  function HandlerResult(handler: string, o: HandlerOutcome): Option<string> {
    if o.status == OK then None
    else if o.errsv.Some? then o.errsv
    else Some("<Perl> handler " + handler + " failed with status=" + IntToString(o.status))
  }

  /** The <Perl key=val,...> directive.  Without a '>' the directive is
      unclosed and nothing else happens.  Otherwise Perl is started early
      (modperl_run; `startsPerl` says it was called), the virtual host
      initialised (`vhostInitOk`), the argument cut at its
      last '>' and parsed; the `handler` key names the sub that
      `callback` runs with the blessed cmd_parms and the hash. */
  method PerlSection(parms: CmdParms, arg: string, vhostInitOk: bool,
                     callback: (string, seq<Sv>) -> HandlerOutcome)
    returns (startsPerl: bool, err: Option<string>)
    ensures startsPerl <==> LastIndex(arg, '>').Some?
    ensures LastIndex(arg, '>').None? ==> err == Some(UnclosedDirective(parms.CmdName()))
    ensures LastIndex(arg, '>').Some? && !vhostInitOk ==> err == Some("init mod_perl vhost failed")
    ensures LastIndex(arg, '>').Some? && vhostInitOk ==>
      var text := arg[..LastIndex(arg, '>').value];
      var hv := ParseArgsFrom(text, text, map[]);
      (hv.Failure? ==> err == Some(hv.error)) &&
      (hv.Success? && "handler" !in hv.value ==> err == Some("no <Perl> handler specified")) &&
      (hv.Success? && "handler" in hv.value ==>
         var h := hv.value["handler"];
         err == HandlerResult(h, callback(h, [parms.Blessed(), HashRef(StrValues(hv.value))])))
  {
    var endp := LastIndex(arg, '>');
    if endp.None? {
      return false, Some(UnclosedDirective(parms.CmdName()));
    }
    startsPerl := true;   // modperl_run, before anything else can fail
    if !vhostInitOk {
      return startsPerl, Some("init mod_perl vhost failed");
    }
    var text := arg[..endp.value];
    var hv := ParseArgs(text);
    if hv.Failure? {
      return startsPerl, Some(hv.error);
    }
    if "handler" !in hv.value {
      return startsPerl, Some("no <Perl> handler specified");
    }
    var h := hv.value["handler"];
    var o := callback(h, [parms.Blessed(), HashRef(StrValues(hv.value))]);
    err := HandlerResult(h, o);
  }

  /** The Perl hash for a parsed argument list. */
  function StrValues(hv: map<string, string>): (r: map<string, Sv>)
    ensures r.Keys == hv.Keys
    ensures forall k :: k in r ==> r[k] == StrSv(hv[k])
  {
    map k | k in hv :: StrSv(hv[k])
  }

  // ---------------------------------------------------------------------
  // POD and __END__ in the configuration file.

  /** The configuration file being read: its lines as ap_cfg_getline
      returns them, and how many have been read. */
  class ConfigFile {
    const lines: seq<string>
    var pos: nat

    constructor (lines: seq<string>)
      ensures this.lines == lines && pos == 0
    {
      this.lines := lines;
      pos := 0;
    }

    /** ap_cfg_getline: the next line, or None at the end of the file. */
    method GetLine() returns (line: Option<string>)
      modifies this
      ensures old(pos) < |lines| ==> line == Some(lines[old(pos)]) && pos == old(pos) + 1
      ensures old(pos) >= |lines| ==> line == None && pos == old(pos)
    {
      if pos < |lines| {
        line := Some(lines[pos]);
        pos := pos + 1;
      } else {
        line := None;
      }
    }
  }

  /** strstr(s, sub) != NULL */
  predicate Contains(s: string, sub: string)
    decreases |s|
  {
    (|sub| <= |s| && s[..|sub|] == sub) || (s != [] && Contains(s[1..], sub))
  }

  /** MP_POD_FORMAT */
  predicate PodFormat(s: string) {
    Contains(s, "httpd") || Contains(s, "apache")
  }

  /** A =pod argument the directive refuses: non-empty, naming neither
      httpd nor apache, and not a piece of the word "pod" (the strstr
      arguments are swapped in the source; this keeps them as written). */
  predicate PodArgRejected(arg: string) {
    arg != [] && !(PodFormat(arg) || Contains("pod", arg))
  }

  /** The line that ends a POD block: "=cut", or an "=over" line naming
      httpd or apache. */
  predicate PodTerminator(line: string) {
    line == "=cut" || (|line| >= 5 && line[..5] == "=over" && PodFormat(line))
  }

  /** Where reading stops when skipping POD from line `pos`: just past the
      first terminator, or at the end of the file. */
  function PodEnd(lines: seq<string>, pos: nat): (r: nat)
    ensures pos >= |lines| ==> r == pos
    ensures pos < |lines| ==> pos < r <= |lines|
    ensures pos < |lines| ==> forall j :: pos <= j < r - 1 ==> !PodTerminator(lines[j])
    ensures pos < |lines| ==> PodTerminator(lines[r - 1]) || r == |lines|
    decreases |lines| - pos
  {
    if pos >= |lines| then pos
    else if PodTerminator(lines[pos]) then pos + 1
    else PodEnd(lines, pos + 1)
  }

  /** =pod: refuses an unknown format; otherwise swallows the lines up to
      and including the end of the POD block. */
  method Pod(arg: string, cf: ConfigFile) returns (err: Option<string>)
    modifies cf
    ensures PodArgRejected(arg) ==> err == Some("Unknown =back format") && cf.pos == old(cf.pos)
    ensures !PodArgRejected(arg) ==> err == None && cf.pos == PodEnd(cf.lines, old(cf.pos))
  {
    if PodArgRejected(arg) {
      return Some("Unknown =back format");
    }
    err := None;
    while true
      invariant PodEnd(cf.lines, cf.pos) == PodEnd(cf.lines, old(cf.pos))
      decreases |cf.lines| - cf.pos
    {
      var line := cf.GetLine();
      if line.None? {
        return;
      }
      if PodTerminator(line.value) {
        return;
      }
    }
  }

  /** =cut outside a POD block always fails with this message. */
  const POD_CUT_ERROR := "=cut without =pod"

  /** The =cut directive: reached only outside a POD block (Pod consumes
      the =cut that ends one), it fails whatever its argument and reads
      nothing from the configuration file. */
  function PodCut(arg: string): (err: Option<string>)
    ensures err.Some? && err.value == POD_CUT_ERROR
  {
    Some(POD_CUT_ERROR)
  }

  /** __END__: reads the rest of the configuration file. */
  method End(cf: ConfigFile) returns (err: Option<string>)
    modifies cf
    ensures err == None
    ensures cf.pos == if old(cf.pos) < |cf.lines| then |cf.lines| else old(cf.pos)
  {
    err := None;
    var line := cf.GetLine();
    while line.Some?
      invariant line.None? ==> cf.pos == if old(cf.pos) < |cf.lines| then |cf.lines| else old(cf.pos)
      invariant old(cf.pos) < |cf.lines| ==> cf.pos <= |cf.lines|
      invariant line.Some? ==> old(cf.pos) < |cf.lines| && cf.pos > 0
      decreases |cf.lines| - cf.pos, line.Some?
    {
      line := cf.GetLine();
    }
  }

  // ---------------------------------------------------------------------
  // PerlInterpScope.

  const SCOPE_USAGE := "PerlInterpScope must be one of "
  const SCOPE_DIR_OPTS := "handler, subrequest or request"
  const SCOPE_DIR_USAGE := SCOPE_USAGE + SCOPE_DIR_OPTS
  const SCOPE_SRV_USAGE := SCOPE_USAGE + "connection, " + SCOPE_DIR_OPTS

  /** The usage message for the context. */
  function ScopeUsage(perDir: bool): string {
    if perDir then SCOPE_DIR_USAGE else SCOPE_SRV_USAGE
  }

  /** The switch of modperl_cmd_interp_scope as written: dispatch on the
      lower-cased first character, each case falling through to the next
      when the whole word does not match. */
  function ScopeSwitch(arg: string, perDir: bool): Result<InterpScope, string> {
    var c := if arg == [] then '\0' else Lower(arg[0]);
    if c == 'h' && CaseEq(arg, "handler") then Success(Handler)
    else if (c == 'h' || c == 's') && CaseEq(arg, "subrequest") then Success(Subrequest)
    else if (c == 'h' || c == 's' || c == 'r') && CaseEq(arg, "request") then Success(Request)
    else if (c == 'h' || c == 's' || c == 'r' || c == 'c') && !perDir && CaseEq(arg, "connection") then
      Success(Connection)
    else Failure(ScopeUsage(perDir))
  }

  /** The keywords PerlInterpScope accepts, compared without case:
      handler, subrequest and request anywhere, connection only outside a
      container. */
  function ScopeKeyword(arg: string, perDir: bool): Option<InterpScope> {
    if CaseEq(arg, "handler") then Some(Handler)
    else if CaseEq(arg, "subrequest") then Some(Subrequest)
    else if CaseEq(arg, "request") then Some(Request)
    else if !perDir && CaseEq(arg, "connection") then Some(Connection)
    else None
  }

  /** The fall-through switch accepts exactly the keywords, and answers the
      usage message for the context otherwise. */
  lemma ScopeSwitchIsKeywordMatch(arg: string, perDir: bool)
    ensures ScopeSwitch(arg, perDir) ==
      if ScopeKeyword(arg, perDir).Some? then Success(ScopeKeyword(arg, perDir).value)
      else Failure(ScopeUsage(perDir))
  {
    if CaseEq(arg, "handler") { assert Lower(arg[0]) == Lower("handler"[0]); }
    if CaseEq(arg, "subrequest") { assert Lower(arg[0]) == Lower("subrequest"[0]); }
    if CaseEq(arg, "request") { assert Lower(arg[0]) == Lower("request"[0]); }
    if CaseEq(arg, "connection") { assert Lower(arg[0]) == Lower("connection"[0]); }
  }

  /** PerlInterpScope: on a keyword, sets the directory's scope in a
      container and the server's scope outside one; otherwise returns the
      usage message and changes nothing. */
  method InterpScopeCmd(parms: CmdParms, dcfg: DirConfig, arg: string) returns (err: Option<string>)
    modifies dcfg`interpScope, parms.server.scfg`interpScope
    ensures var r := ScopeSwitch(arg, parms.path.Some?);
      (r.Failure? ==> err == Some(r.error) && dcfg.interpScope == old(dcfg.interpScope) &&
                      parms.server.scfg.interpScope == old(parms.server.scfg.interpScope)) &&
      (r.Success? && parms.path.Some? ==>
         err == None && dcfg.interpScope == r.value &&
         parms.server.scfg.interpScope == old(parms.server.scfg.interpScope)) &&
      (r.Success? && parms.path.None? ==>
         err == None && parms.server.scfg.interpScope == r.value &&
         dcfg.interpScope == old(dcfg.interpScope))
  {
    var scfg := parms.server.scfg;
    var isPerDir := parms.path.Some?;
    var r := ScopeSwitch(arg, isPerDir);
    if r.Failure? {
      return Some(r.error);
    }
    if isPerDir {
      dcfg.interpScope := r.value;
    } else {
      scfg.interpScope := r.value;
    }
    err := None;
  }

  // ---------------------------------------------------------------------
  // PerlInterpStart, PerlInterpMax, PerlInterpMaxSpare, PerlInterpMinSpare,
  // PerlInterpMaxRequests.

  /** isspace in the C locale. */
  predicate IsSpace(c: char) {
    c == ' ' || c == '\t' || c == '\n' || c == '\r' || c == '\U{B}' || c == '\U{C}'
  }

  predicate IsDigit(c: char) {
    '0' <= c <= '9'
  }

  function SkipSpace(s: string): (r: string)
    ensures r == [] || !IsSpace(r[0])
  {
    if s != [] && IsSpace(s[0]) then SkipSpace(s[1..]) else s
  }

  /** The longest prefix of decimal digits. */
  function DigitPrefix(s: string): (r: string)
    ensures |r| <= |s| && r == s[..|r|]
    ensures forall k :: 0 <= k < |r| ==> IsDigit(r[k])
    ensures |r| == |s| || !IsDigit(s[|r|])
  {
    if s != [] && IsDigit(s[0]) then [s[0]] + DigitPrefix(s[1..]) else []
  }

  /** The value of a string of decimal digits. */
  function DigitsValue(d: string): nat
    requires forall k :: 0 <= k < |d| ==> IsDigit(d[k])
  {
    if d == [] then 0
    else
      var last := d[|d| - 1];
      assert IsDigit(last);
      DigitsValue(d[..|d| - 1]) * 10 + (last as int - '0' as int)
  }

  /** atoi: leading white space, an optional sign, then the digits up to
      the first non-digit; 0 when there are none. */
  function Atoi(s: string): int {
    var t := SkipSpace(s);
    if t != [] && t[0] == '-' then -(DigitsValue(DigitPrefix(t[1..])) as int)
    else if t != [] && t[0] == '+' then DigitsValue(DigitPrefix(t[1..]))
    else DigitsValue(DigitPrefix(t))
  }

  lemma {:induction false} DigitPrefixAll(s: string)
    requires forall k :: 0 <= k < |s| ==> IsDigit(s[k])
    ensures DigitPrefix(s) == s
    decreases |s|
  {
    if s != [] {
      DigitPrefixAll(s[1..]);
    }
  }

  lemma {:induction false} DigitsValueOfNat(n: nat)
    ensures forall k :: 0 <= k < |NatToString(n)| ==> IsDigit(NatToString(n)[k])
    ensures DigitsValue(NatToString(n)) == n
    decreases n
  {
    var s := NatToString(n);
    if n >= 10 {
      DigitsValueOfNat(n / 10);
      assert s[..|s| - 1] == NatToString(n / 10);
    }
    var d := n % 10;
    assert s[|s| - 1] == DigitChar(d);
    assert DigitChar(d) as int - '0' as int == d by {
      assert d < 10;
      if d == 0 {} else if d == 1 {} else if d == 2 {} else if d == 3 {} else if d == 4 {}
      else if d == 5 {} else if d == 6 {} else if d == 7 {} else if d == 8 {} else {}
    }
  }

  /** atoi reads back every integer printed with "%d". */
  lemma AtoiOfIntToString(n: int)
    ensures Atoi(IntToString(n)) == n
  {
    var m: nat := if n < 0 then -n else n;
    DigitsValueOfNat(m);
    DigitPrefixAll(NatToString(m));
    var s := IntToString(n);
    assert !IsSpace(s[0]);
    if n < 0 {
      assert s[1..] == NatToString(m);
    } else {
      assert IsDigit(s[0]);
    }
  }

  datatype PoolField = Start | Max | MaxSpare | MinSpare | MaxRequests

  /** MP_CMD_INTERP_POOL_IMP: sets the one pool-sizing field the directive
      names to atoi of its argument, leaves the other fields alone and
      never fails. */
  method SetPoolField(parms: CmdParms, field: PoolField, arg: string) returns (err: Option<string>)
    modifies parms.server.scfg.poolCfg
    ensures err == None
    ensures var c := parms.server.scfg.poolCfg;
      c.start == (if field == Start then Atoi(arg) else old(c.start)) &&
      c.max == (if field == Max then Atoi(arg) else old(c.max)) &&
      c.maxSpare == (if field == MaxSpare then Atoi(arg) else old(c.maxSpare)) &&
      c.minSpare == (if field == MinSpare then Atoi(arg) else old(c.minSpare)) &&
      c.maxRequests == (if field == MaxRequests then Atoi(arg) else old(c.maxRequests))
  {
    var c := parms.server.scfg.poolCfg;
    var item := Atoi(arg);
    err := None;
    match field
    case Start => c.start := item;
    case Max => c.max := item;
    case MaxSpare => c.maxSpare := item;
    case MinSpare => c.minSpare := item;
    case MaxRequests => c.maxRequests := item;
  }
}
