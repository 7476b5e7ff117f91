// `bbblb override list|set|unset` and the NAME<op>VALUE parser shared with
// `bbblb tenant override`.

module OverrideCli {
  import opened Base
  import opened Model

  // ---------------------------------------------------------------------
  // The pattern ^([a-zA-Z0-9-_]+)([=?<-])(.*)$ under re.match

  /** The name class: ASCII letters, digits, '-' and '_'. */
  predicate NameChar(c: char) {
    ('a' <= c <= 'z') || ('A' <= c <= 'Z') || ('0' <= c <= '9') || c == '-' || c == '_'
  }

  /** The operator class; '-' belongs to both classes. */
  predicate OpChar(c: char) {
    c == '=' || c == '?' || c == '<' || c == '-'
  }

  /** What `(.*)$` captures of the rest of the input: '.' stops at a newline
      and '$' matches at the end or just before a final newline. */
  function ValueOf(rest: string): (r: Option<string>)
    ensures r.Some? ==> '\n' !in r.value && (rest == r.value || rest == r.value + "\n")
    ensures '\n' !in rest ==> r == Some(rest)
  {
    if '\n' !in rest then Some(rest)
    else if rest[|rest| - 1] == '\n' && '\n' !in rest[..|rest| - 1] then
      assert rest == rest[..|rest| - 1] + "\n";
      Some(rest[..|rest| - 1])
    else None
  }

  /** The parsed groups. */
  datatype Override = Override(name: string, op: char, value: string)

  /** The pattern matches with a name of k characters. */
  predicate ValidSplit(s: string, k: int) {
    && 1 <= k < |s|
    && (forall i :: 0 <= i < k ==> NameChar(s[i]))
    && OpChar(s[k])
    && ValueOf(s[k + 1..]).Some?
  }

  function SplitAt(s: string, k: int): Override
    requires ValidSplit(s, k)
  {
    Override(s[..k], s[k], ValueOf(s[k + 1..]).value)
  }

  /** The length of the longest prefix of name characters. */
  function RunLength(s: string): (n: nat)
    ensures n <= |s|
    ensures forall i :: 0 <= i < n ==> NameChar(s[i])
    ensures n < |s| ==> !NameChar(s[n])
  {
    if s == [] || !NameChar(s[0]) then 0 else 1 + RunLength(s[1..])
  }

  /** The backtracking of the greedy name group: try the names of k, k-1, ...
      characters; the length of the first that matches. */
  function Search(s: string, k: nat): (r: Option<nat>)
    ensures r.Some? ==> 1 <= r.value <= k && ValidSplit(s, r.value)
    decreases k
  {
    if k == 0 then None
    else if ValidSplit(s, k) then Some(k)
    else Search(s, k - 1)
  }

  /** `re.match(...)` and `m.groups()`; None where the pattern does not match. */
  function ParseOverride(s: string): (r: Option<Override>)
    ensures r.Some? ==> ValidSplit(s, |r.value.name|) && r == Some(SplitAt(s, |r.value.name|))
  {
    match Search(s, RunLength(s))
    case None => None
    case Some(k) => Some(SplitAt(s, k))
  }

  /** No split with a name of more than j and at most k characters matches. */
  predicate NoneAbove(s: string, j: int, k: int) {
    forall j' :: j < j' <= k ==> !ValidSplit(s, j')
  }

  /** Backtracking finds the longest matching name of at most k characters,
      or there is none. */
  lemma {:induction false} SearchFinds(s: string, k: nat)
    ensures Search(s, k).Some? ==> NoneAbove(s, Search(s, k).value, k)
    ensures Search(s, k).None? ==> NoneAbove(s, 0, k)
    decreases k
  {
    if k > 0 && !ValidSplit(s, k) {
      SearchFinds(s, k - 1);
      var j := if Search(s, k).Some? then Search(s, k).value else 0;
      NoneAboveExtend(s, j, k);
    }
  }

  lemma NoneAboveExtend(s: string, j: int, k: int)
    requires NoneAbove(s, j, k - 1) && !ValidSplit(s, k)
    ensures NoneAbove(s, j, k)
  {
  }

  /** The parse succeeds iff some split of the input matches the pattern,
      and then the name is the longest one that does. */
  lemma ParseOverrideLongest(s: string)
    ensures ParseOverride(s).Some? <==> exists k :: ValidSplit(s, k)
    ensures ParseOverride(s).Some? ==>
      ValidSplit(s, |ParseOverride(s).value.name|)
      && ParseOverride(s) == Some(SplitAt(s, |ParseOverride(s).value.name|))
      && forall k :: ValidSplit(s, k) ==> k <= |ParseOverride(s).value.name|
  {
    SearchFinds(s, RunLength(s));
    // a valid name never reaches past the run of name characters
    assert forall k :: ValidSplit(s, k) ==> k <= RunLength(s);
    if Search(s, RunLength(s)).Some? {
      assert |SplitAt(s, Search(s, RunLength(s)).value).name| == Search(s, RunLength(s)).value;
    }
  }

  lemma SplitAtRecompose(s: string, k: int)
    requires ValidSplit(s, k)
    ensures var o := SplitAt(s, k);
      && o.name != [] && (forall i :: 0 <= i < |o.name| ==> NameChar(o.name[i])) && OpChar(o.op)
      && '\n' !in o.value
      && (s == o.name + [o.op] + o.value || s == o.name + [o.op] + o.value + "\n")
  {
    assert s == s[..k] + [s[k]] + s[k + 1..];
  }

  /** The groups put back together give the input, up to a final newline;
      the name is a non-empty run of name characters and the operator one of
      =, ?, < and -. */
  lemma ParseOverrideRecompose(s: string)
    requires ParseOverride(s).Some?
    ensures var o := ParseOverride(s).value;
      && o.name != [] && (forall i :: 0 <= i < |o.name| ==> NameChar(o.name[i])) && OpChar(o.op)
      && '\n' !in o.value
      && (s == o.name + [o.op] + o.value || s == o.name + [o.op] + o.value + "\n")
  {
    ParseOverrideLongest(s);
    SplitAtRecompose(s, |ParseOverride(s).value.name|);
  }

  /** The '+' operator is not part of the pattern: "x+1" does not parse. */
  lemma PlusIsRejected()
    ensures ParseOverride("x+1") == None
  {
    var s := "x+1";
    ParseOverrideLongest(s);
    assert !ValidSplit(s, 1) by {
      assert s[1] == '+';
    }
    assert !ValidSplit(s, 2) by {
      assert s[1] == '+';
    }
  }

  /** A dash may end the name and also be the operator: the longest name
      that leaves an operator after it wins. */
  lemma DashEndsLongestName()
    ensures ParseOverride("a--") == Some(Override("a-", '-', ""))
  {
    var s := "a--";
    assert RunLength(s[2..]) == 1;
    assert RunLength(s) == 3;
    assert !ValidSplit(s, 3);
    assert ValidSplit(s, 2);
    assert s[..2] == "a-";
  }

  // ---------------------------------------------------------------------
  // set and unset

  /** The add_override calls for the parsed arguments. */
  function AddCalls(tenant: string, overrides: seq<string>): (r: seq<OverrideCall>)
    requires forall i :: 0 <= i < |overrides| ==> ParseOverride(overrides[i]).Some?
    ensures |r| == |overrides|
    ensures forall i :: 0 <= i < |r| ==> r[i] == AddOverride(tenant, ParseOverride(overrides[i]).value.name,
      ParseOverride(overrides[i]).value.op, ParseOverride(overrides[i]).value.value)
  {
    seq(|overrides|, i requires 0 <= i < |overrides| =>
      var o := ParseOverride(overrides[i]).value; AddOverride(tenant, o.name, o.op, o.value))
  }

  /** The loop over the arguments: the calls it makes, or None once an
      argument does not parse. */
  method CollectAdds(tenant: string, overrides: seq<string>) returns (r: Option<seq<OverrideCall>>)
    ensures r.Some? <==> forall i :: 0 <= i < |overrides| ==> ParseOverride(overrides[i]).Some?
    ensures r.Some? ==> r.value == AddCalls(tenant, overrides)
  {
    var calls: seq<OverrideCall> := [];
    var i := 0;
    while i < |overrides|
      invariant 0 <= i <= |overrides|
      invariant forall j :: 0 <= j < i ==> ParseOverride(overrides[j]).Some?
      invariant calls == AddCalls(tenant, overrides[..i])
    {
      var m := ParseOverride(overrides[i]);
      if m.None? {
        return None;
      }
      AddCallsStep(tenant, overrides, i);
      calls := calls + [AddOverride(tenant, m.value.name, m.value.op, m.value.value)];
      i := i + 1;
    }
    assert overrides[..i] == overrides;
    return Some(calls);
  }

  /** The calls for one more parsed argument. */
  lemma AddCallsStep(tenant: string, overrides: seq<string>, i: nat)
    requires i < |overrides|
    requires forall j :: 0 <= j <= i ==> ParseOverride(overrides[j]).Some?
    ensures var o := ParseOverride(overrides[i]).value;
      AddCalls(tenant, overrides[..i + 1]) == AddCalls(tenant, overrides[..i]) + [AddOverride(tenant, o.name, o.op, o.value)]
  {
    var o := ParseOverride(overrides[i]).value;
    var a, c := AddCalls(tenant, overrides[..i + 1]), AddCalls(tenant, overrides[..i]) + [AddOverride(tenant, o.name, o.op, o.value)];
    assert |a| == |c|;
    forall j | 0 <= j < |a| ensures a[j] == c[j] {
      if j < i {
        assert overrides[..i + 1][j] == overrides[..i][j];
      } else {
        assert overrides[..i + 1][j] == overrides[i];
      }
    }
  }

  /** `override set`. Exit status 1, with nothing stored, for an unknown
      tenant, for a call with neither --clear nor an override, and for an
      argument that does not parse; otherwise the clear (with --clear) and
      the additions are committed. */
  method SetOverrides(reg: Registry, tenant: string, clear: bool, overrides: seq<string>) returns (exit: int)
    modifies reg`overrideCalls
    ensures exit == 0 || exit == 1
    ensures exit == 0 <==>
      && tenant in reg.tenants && (clear || overrides != [])
      && forall i :: 0 <= i < |overrides| ==> ParseOverride(overrides[i]).Some?
    ensures exit == 0 ==>
      reg.overrideCalls == old(reg.overrideCalls) + (if clear then [ClearOverrides(tenant)] else []) + AddCalls(tenant, overrides)
    ensures exit == 1 ==> reg.overrideCalls == old(reg.overrideCalls)
  {
    if tenant !in reg.tenants {
      return 1;
    }
    var calls: seq<OverrideCall> := [];
    if clear {
      calls := [ClearOverrides(tenant)];
    } else if overrides == [] {
      return 1;
    }
    var adds := CollectAdds(tenant, overrides);
    if adds.None? {
      return 1;
    }
    reg.overrideCalls := reg.overrideCalls + calls + adds.value;
    return 0;
  }

  /** `override unset`: one remove_override call per name, for a known
      tenant. */
  method UnsetOverrides(reg: Registry, tenant: string, names: seq<string>) returns (exit: int)
    modifies reg`overrideCalls
    ensures exit == 0 <==> tenant in reg.tenants
    ensures exit != 0 ==> exit == 1 && reg.overrideCalls == old(reg.overrideCalls)
    ensures exit == 0 ==>
      && |reg.overrideCalls| == |old(reg.overrideCalls)| + |names|
      && reg.overrideCalls[..|old(reg.overrideCalls)|] == old(reg.overrideCalls)
      && forall i :: 0 <= i < |names| ==> reg.overrideCalls[|old(reg.overrideCalls)| + i] == RemoveOverride(tenant, names[i])
  {
    if tenant !in reg.tenants {
      return 1;
    }
    var i := 0;
    while i < |names|
      invariant 0 <= i <= |names|
      invariant |reg.overrideCalls| == |old(reg.overrideCalls)| + i
      invariant reg.overrideCalls[..|old(reg.overrideCalls)|] == old(reg.overrideCalls)
      invariant forall j :: 0 <= j < i ==> reg.overrideCalls[|old(reg.overrideCalls)| + j] == RemoveOverride(tenant, names[j])
    {
      reg.overrideCalls := reg.overrideCalls + [RemoveOverride(tenant, names[i])];
      i := i + 1;
    }
    return 0;
  }

  // ---------------------------------------------------------------------
  // list

  /** Python's `<` on strings: code point by code point, a proper prefix
      first. */
  predicate StrLess(a: string, b: string)
    decreases |a|
  {
    if a == [] then b != []
    else if b == [] then false
    else if a[0] != b[0] then a[0] < b[0]
    else StrLess(a[1..], b[1..])
  }

  predicate StrLeq(a: string, b: string) {
    a == b || StrLess(a, b)
  }

  lemma {:induction false} StrLessTotal(a: string, b: string)
    ensures a == b || StrLess(a, b) || StrLess(b, a)
    decreases |a|
  {
    if a != [] && b != [] && a[0] == b[0] {
      StrLessTotal(a[1..], b[1..]);
      if a[1..] == b[1..] {
        assert a == [a[0]] + a[1..] && b == [b[0]] + b[1..];
      }
    }
  }

  /** Neighbours in key order. */
  predicate SortedByKey(xs: seq<(string, string)>) {
    forall i :: 0 <= i < |xs| - 1 ==> StrLeq(xs[i].0, xs[i + 1].0)
  }

  function Insert(p: (string, string), xs: seq<(string, string)>): (r: seq<(string, string)>)
    ensures multiset(r) == multiset{p} + multiset(xs)
    ensures r != [] && (r[0] == p || (xs != [] && r[0] == xs[0]))
  {
    if xs == [] then [p]
    else if StrLeq(p.0, xs[0].0) then [p] + xs
    else
      assert xs == [xs[0]] + xs[1..];
      [xs[0]] + Insert(p, xs[1..])
  }

  lemma {:induction false} InsertSorted(p: (string, string), xs: seq<(string, string)>)
    requires SortedByKey(xs)
    ensures SortedByKey(Insert(p, xs))
  {
    if xs != [] && !StrLeq(p.0, xs[0].0) {
      StrLessTotal(p.0, xs[0].0);
      InsertSorted(p, xs[1..]);
      var tail := Insert(p, xs[1..]);
      assert Insert(p, xs) == [xs[0]] + tail;
      assert StrLeq(xs[0].0, tail[0].0);
    }
  }

  /** `sorted(items)`; the keys of a dictionary are distinct, so the values
      never take part in the comparison. */
  function SortByKey(xs: seq<(string, string)>): (r: seq<(string, string)>)
    ensures multiset(r) == multiset(xs)
  {
    if xs == [] then []
    else
      assert xs == [xs[0]] + xs[1..];
      Insert(xs[0], SortByKey(xs[1..]))
  }

  lemma {:induction false} SortByKeySorted(xs: seq<(string, string)>)
    ensures SortedByKey(SortByKey(xs))
  {
    if xs != [] {
      SortByKeySorted(xs[1..]);
      InsertSorted(xs[0], SortByKey(xs[1..]));
    }
  }

  /** A tenant row as `list` reads it: its name and its overrides in
      dictionary order. */
  datatype TenantOverrides = TenantOverrides(name: string, items: seq<(string, string)>)

  /** The lines printed for one tenant. */
  function TenantLines(t: TenantOverrides): (r: seq<string>)
    ensures |r| == |t.items|
  {
    var sorted := SortByKey(t.items);
    assert |sorted| == |multiset(sorted)| == |t.items|;
    seq(|sorted|, i requires 0 <= i < |sorted| => t.name + ": " + sorted[i].0 + sorted[i].1)
  }

  /** The number of overrides of the tenants together. */
  function ItemCount(ts: seq<TenantOverrides>): nat
    decreases |ts|
  {
    if ts == [] then 0 else ItemCount(ts[..|ts| - 1]) + |ts[|ts| - 1].items|
  }

  /** The lines of the tenants in table order: one line per override. */
  function AllLines(ts: seq<TenantOverrides>): (r: seq<string>)
    ensures |r| == ItemCount(ts)
    decreases |ts|
  {
    if ts == [] then [] else AllLines(ts[..|ts| - 1]) + TenantLines(ts[|ts| - 1])
  }

  function Named(rows: seq<TenantOverrides>, name: string): (r: seq<TenantOverrides>)
    ensures forall t :: t in r <==> t in rows && t.name == name
  {
    if rows == [] then [] else (if rows[0].name == name then [rows[0]] else []) + Named(rows[1..], name)
  }

  /** `override list`: the lines of the named tenant, or of every tenant in
      table order; exit status 1 for an unknown named tenant. An empty name
      lists every tenant. */
  function ListOverrides(rows: seq<TenantOverrides>, tenant: Option<string>): (r: Result<seq<string>, int>)
    ensures r.Err? <==> tenant.Some? && tenant.value != "" && Named(rows, tenant.value) == []
    ensures r.Err? ==> r.error == 1
    ensures tenant.None? || tenant.value == "" ==> r == Ok(AllLines(rows))
    ensures tenant.Some? && tenant.value != "" && Named(rows, tenant.value) != [] ==> r == Ok(AllLines(Named(rows, tenant.value)))
  {
    if tenant.Some? && tenant.value != "" then
      var named := Named(rows, tenant.value);
      if named == [] then Err(1) else Ok(AllLines(named))
    else Ok(AllLines(rows))
  }

  /** The lines of a tenant put its overrides in key order, each exactly
      once. */
  lemma TenantLinesSorted(t: TenantOverrides)
    ensures SortedByKey(SortByKey(t.items))
    ensures multiset(SortByKey(t.items)) == multiset(t.items)
    ensures forall i :: 0 <= i < |TenantLines(t)| ==>
      TenantLines(t)[i] == t.name + ": " + SortByKey(t.items)[i].0 + SortByKey(t.items)[i].1
  {
    SortByKeySorted(t.items);
  }
}
