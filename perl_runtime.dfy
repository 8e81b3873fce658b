/** The embedded Perl interpreter, seen from mod_perl's C code.
    Perl values (SV pointers) are modelled as the `Sv` datatype, where `Null`
    stands for the C NULL pointer (`Nullsv`).  Everything the interpreter
    itself decides (method resolution, the outcome of calling a sub or a
    method, the contents of package arrays, constant lookup) is an oracle:
    a field of the `Perl` datatype that the model only calls through. */
module PerlRuntime {
  import opened Wrappers

  type PerlId = nat

  datatype Sv =
    | Null                             // C NULL pointer, no SV at all
    | Undef
    | IntSv(i: int)                    // an SV with the IOK flag set
    | StrSv(s: string)
    | HashRef(h: map<string, Sv>)      // unblessed reference to a hash
    | ObjectRef(cls: string, addr: nat) // blessed reference; addr is its identity

  /** The result of call_sv / call_method with G_EVAL|G_SCALAR: the number of
      values returned, the value on top of the stack when `count == 1`, and
      `$@` when it is true after the call. */
  datatype CallOutcome = CallOutcome(count: nat, top: Sv, errsv: Option<string>)

  datatype Perl = Perl(
    resolves: string -> bool,                    // modperl_mgv_lookup of a compiled "Pkg::method"
    hasMethod: (string, string) -> bool,         // gv_fetchmethod_autoload(stash of pkg, method)
    callSub: (string, seq<Sv>) -> CallOutcome,   // call_sv on the sub a name resolves to
    callMethod: (string, seq<Sv>) -> CallOutcome, // call_method; the invocant is args[0]
    arrayVar: string -> Option<seq<Sv>>,         // get_av(name, FALSE)
    refString: Sv -> string,                     // stringification of a reference
    constant: string -> int)                     // modperl_constants_lookup_apache

  /** Perl's truth test SvTRUE. */
  predicate SvTrue(sv: Sv) {
    match sv
    case Null => false
    case Undef => false
    case IntSv(i) => i != 0
    case StrSv(s) => s != "" && s != "0"
    case HashRef(_) => true
    case ObjectRef(_, _) => true
  }

  /** sv_isobject */
  predicate IsObject(sv: Sv) {
    sv.ObjectRef?
  }

  /** SvROK(sv) && SvTYPE(SvRV(sv)) == SVt_PVHV for an unblessed reference. */
  predicate IsHashRef(sv: Sv) {
    sv.HashRef?
  }

  /** The class name a blessed reference carries (SvCLASS). */
  function SvClass(sv: Sv): string {
    if sv.ObjectRef? then sv.cls else ""
  }

  function DigitChar(d: nat): char
    requires d < 10
  {
    "0123456789"[d]
  }

  /** Decimal rendering of a natural number, as "%d" prints it. */
  function NatToString(n: nat): (s: string)
    ensures |s| >= 1
    ensures forall k :: 0 <= k < |s| ==> '0' <= s[k] <= '9'
    decreases n
  {
    if n < 10 then [DigitChar(n)] else NatToString(n / 10) + [DigitChar(n % 10)]
  }

  function IntToString(i: int): string {
    if i < 0 then "-" + NatToString(-i) else NatToString(i)
  }

  /** SvPV: the string value of an SV. */
  function SvPV(perl: Perl, sv: Sv): string {
    match sv
    case Null => ""
    case Undef => ""
    case IntSv(i) => IntToString(i)
    case StrSv(s) => s
    case HashRef(_) => perl.refString(sv)
    case ObjectRef(_, _) => perl.refString(sv)
  }
}

/** A live interpreter (aTHX): the oracle it answers with, and the log of
    the subs and methods mod_perl has called on it, so that a contract can
    say that a callback was, or was not, made. */
module PerlInterpreters {
  import opened PerlRuntime

  datatype PerlCall = SubCall(name: string, args: seq<Sv>) | MethodCall(name: string, args: seq<Sv>)

  class PerlInterpreter {
    const perl: Perl
    ghost var calls: seq<PerlCall>

    constructor (perl: Perl)
      ensures this.perl == perl && calls == []
    {
      this.perl := perl;
      calls := [];
    }

    /** call_sv((SV*)GvCV(gv), G_EVAL|G_SCALAR) on the sub `name` resolves to. */
    method CallSub(name: string, args: seq<Sv>) returns (o: CallOutcome)
      modifies this`calls
      ensures o == perl.callSub(name, args)
      ensures calls == old(calls) + [SubCall(name, args)]
    {
      o := perl.callSub(name, args);
      calls := calls + [SubCall(name, args)];
    }

    /** call_method(name, G_EVAL|G_SCALAR) with invocant args[0]. */
    method CallMethod(name: string, args: seq<Sv>) returns (o: CallOutcome)
      modifies this`calls
      ensures o == perl.callMethod(name, args)
      ensures calls == old(calls) + [MethodCall(name, args)]
    {
      o := perl.callMethod(name, args);
      calls := calls + [MethodCall(name, args)];
    }
  }
}
