/** APR tables (apr_table_t) as mod_perl's directive handlers use them:
    an ordered list of key/value pairs whose keys compare without regard to
    ASCII case.  `Set` (apr_table_setn) replaces every entry for a key by one,
    `Add` (apr_table_addn) appends another entry.  The table code belongs to
    APR and is not part of this model; these definitions state what the
    handlers rely on. */
module AprTable {
  import opened Wrappers

  type Table = seq<(string, string)>

  function Lower(c: char): char {
    if 'A' <= c <= 'Z' then (c as int + 32) as char else c
  }

  /** strcasecmp(a, b) == 0 for ASCII strings. */
  predicate CaseEq(a: string, b: string) {
    |a| == |b| && forall i :: 0 <= i < |a| ==> Lower(a[i]) == Lower(b[i])
  }

  lemma CaseEqSymmetric(a: string, b: string)
    requires CaseEq(a, b)
    ensures CaseEq(b, a)
  {
  }

  lemma CaseEqTransitive(a: string, b: string, c: string)
    requires CaseEq(a, b) && CaseEq(b, c)
    ensures CaseEq(a, c)
  {
  }

  /** Every value stored under `k`, in table order (what a lookup in list
      context sees). */
  function GetAll(t: Table, k: string): (vs: seq<string>)
    ensures |vs| <= |t|
  {
    if t == [] then []
    else (if CaseEq(t[0].0, k) then [t[0].1] else []) + GetAll(t[1..], k)
  }

  /** apr_table_get: the first value stored under `k`. */
  function Get(t: Table, k: string): (r: Option<string>)
    ensures r.None? <==> GetAll(t, k) == []
    ensures r.Some? ==> r.value == GetAll(t, k)[0]
  {
    if t == [] then None
    else if CaseEq(t[0].0, k) then Some(t[0].1)
    else Get(t[1..], k)
  }

  /** Drop every entry whose key matches `k`. */
  function RemoveKey(t: Table, k: string): (r: Table)
    ensures |r| <= |t|
  {
    if t == [] then []
    else (if CaseEq(t[0].0, k) then [] else [t[0]]) + RemoveKey(t[1..], k)
  }

  /** apr_table_setn: the first entry for `k` takes the new value, later
      entries for `k` are removed, and a missing key is appended. */
  function Set(t: Table, k: string, v: string): Table {
    if t == [] then [(k, v)]
    else if CaseEq(t[0].0, k) then [(t[0].0, v)] + RemoveKey(t[1..], k)
    else [t[0]] + Set(t[1..], k, v)
  }

  /** apr_table_addn: append one more entry, even if the key is present. */
  function Add(t: Table, k: string, v: string): (r: Table)
    ensures |r| == |t| + 1 && r[..|t|] == t && r[|t|] == (k, v)
  {
    t + [(k, v)]
  }

  lemma {:induction false} GetAllAppend(a: Table, b: Table, k: string)
    ensures GetAll(a + b, k) == GetAll(a, k) + GetAll(b, k)
  {
    if a == [] {
      assert a + b == b;
    } else {
      assert (a + b)[1..] == a[1..] + b;
      GetAllAppend(a[1..], b, k);
    }
  }

  lemma {:induction false} GetAllRemoveKey(t: Table, k: string, k': string)
    ensures GetAll(RemoveKey(t, k), k') == (if CaseEq(k, k') then [] else GetAll(t, k'))
  {
    if t != [] {
      var head := if CaseEq(t[0].0, k) then [] else [t[0]];
      GetAllAppend(head, RemoveKey(t[1..], k), k');
      GetAllRemoveKey(t[1..], k, k');
      if CaseEq(t[0].0, k) && CaseEq(k, k') {
        CaseEqTransitive(t[0].0, k, k');
      }
      if CaseEq(t[0].0, k') && CaseEq(t[0].0, k) {
        CaseEqSymmetric(t[0].0, k);
        CaseEqTransitive(k, t[0].0, k');
      }
    }
  }

  /** After PerlSetVar-style Set, the key holds exactly the new value and
      every other key holds what it held before. */
  lemma {:induction false} SetGetAll(t: Table, k: string, v: string, k': string)
    ensures GetAll(Set(t, k, v), k') == (if CaseEq(k, k') then [v] else GetAll(t, k'))
  {
    if t == [] {
      assert GetAll([(k, v)], k') == (if CaseEq(k, k') then [v] else []);
    } else if CaseEq(t[0].0, k) {
      var s := [(t[0].0, v)] + RemoveKey(t[1..], k);
      GetAllAppend([(t[0].0, v)], RemoveKey(t[1..], k), k');
      GetAllRemoveKey(t[1..], k, k');
      assert GetAll([(t[0].0, v)], k') == (if CaseEq(t[0].0, k') then [v] else []);
      if CaseEq(k, k') {
        CaseEqTransitive(t[0].0, k, k');
      } else if CaseEq(t[0].0, k') {
        CaseEqSymmetric(t[0].0, k);
        CaseEqTransitive(k, t[0].0, k');
      }
      assert GetAll(t, k') == GetAll([t[0]], k') + GetAll(t[1..], k') by {
        assert t == [t[0]] + t[1..];
        GetAllAppend([t[0]], t[1..], k');
      }
    } else {
      GetAllAppend([t[0]], Set(t[1..], k, v), k');
      SetGetAll(t[1..], k, v, k');
      assert t == [t[0]] + t[1..];
      GetAllAppend([t[0]], t[1..], k');
      if CaseEq(t[0].0, k') && CaseEq(k, k') {
        CaseEqSymmetric(k, k');
        CaseEqTransitive(t[0].0, k', k);
      }
    }
  }

  /** After PerlAddVar-style Add, the key holds its old values followed by the
      new one, and every other key is unaffected. */
  lemma AddGetAll(t: Table, k: string, v: string, k': string)
    ensures GetAll(Add(t, k, v), k') == GetAll(t, k') + (if CaseEq(k, k') then [v] else [])
  {
    GetAllAppend(t, [(k, v)], k');
  }
}
