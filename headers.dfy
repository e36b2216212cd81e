/**
 * A header list as the proxy's runtime keeps it for requests and responses:
 * an ordered list of (name, value) pairs in which a name may occur several
 * times. Names are matched case-insensitively (after ASCII lower-casing) and
 * the three operations the proxy uses, `get`, `set` and `append`, follow the
 * header-list algorithms of section 2.2.2 of the WHATWG Fetch Standard.
 */
module Headers {
  import opened Wrappers

  type Header = (string, string)

  function LowerChar(c: char): char {
    if 'A' <= c <= 'Z' then (c as int + 32) as char else c
  }

  function Lower(s: string): string {
    seq(|s|, i requires 0 <= i < |s| => LowerChar(s[i]))
  }

  /** Byte-case-insensitive match of two header names (ASCII letters only). */
  predicate SameName(a: string, b: string) {
    Lower(a) == Lower(b)
  }

  /** True when some entry of `h` is named `name`. */
  ghost predicate Contains(h: seq<Header>, name: string) {
    exists i :: 0 <= i < |h| && SameName(h[i].0, name)
  }

  /** The values of the entries named `name`, in list order. */
  function ValuesOf(h: seq<Header>, name: string): seq<string> {
    if h == [] then []
    else (if SameName(h[0].0, name) then [h[0].1] else []) + ValuesOf(h[1..], name)
  }

  /** The list with every entry named `name` taken out, the rest in order. */
  function Without(h: seq<Header>, name: string): seq<Header> {
    if h == [] then []
    else (if SameName(h[0].0, name) then [] else [h[0]]) + Without(h[1..], name)
  }

  /** The values separated from each other by a comma and a space. */
  function Join(vs: seq<string>): string
    requires vs != []
  {
    if |vs| == 1 then vs[0] else Join(vs[..|vs| - 1]) + ", " + vs[|vs| - 1]
  }

  /** The Fetch "get": null when no entry is named `name`, else all its values joined. */
  function Lookup(h: seq<Header>, name: string): Option<string> {
    var vs := ValuesOf(h, name);
    if vs == [] then None else Some(Join(vs))
  }

  /**
   * The Fetch "set": when the list holds `name`, the first such entry keeps
   * its place and its name and takes `value`, and the later ones are removed;
   * otherwise (name, value) is added at the end.
   */
  function SetEntry(h: seq<Header>, name: string, value: string): seq<Header> {
    if h == [] then [(name, value)]
    else if SameName(h[0].0, name) then [(h[0].0, value)] + Without(h[1..], name)
    else [h[0]] + SetEntry(h[1..], name, value)
  }

  lemma {:induction false} ValuesOfConcat(a: seq<Header>, b: seq<Header>, name: string)
    ensures ValuesOf(a + b, name) == ValuesOf(a, name) + ValuesOf(b, name)
  {
    if a != [] {
      assert (a + b)[1..] == a[1..] + b;
      ValuesOfConcat(a[1..], b, name);
    } else {
      assert a + b == b;
    }
  }

  lemma {:induction false} WithoutConcat(a: seq<Header>, b: seq<Header>, name: string)
    ensures Without(a + b, name) == Without(a, name) + Without(b, name)
  {
    if a != [] {
      assert (a + b)[1..] == a[1..] + b;
      WithoutConcat(a[1..], b, name);
    } else {
      assert a + b == b;
    }
  }

  /** A list has no value for `name` exactly when it has no entry named `name`. */
  lemma {:induction false} ValuesOfEmptyIff(h: seq<Header>, name: string)
    ensures ValuesOf(h, name) == [] <==> !Contains(h, name)
  {
    if h != [] {
      ValuesOfEmptyIff(h[1..], name);
      if Contains(h[1..], name) {
        var i :| 0 <= i < |h[1..]| && SameName(h[1..][i].0, name);
        assert SameName(h[i + 1].0, name);
      }
      if Contains(h, name) && !SameName(h[0].0, name) {
        var i :| 0 <= i < |h| && SameName(h[i].0, name);
        assert SameName(h[1..][i - 1].0, name);
      }
    }
  }

  /** `get` returns null exactly when no entry is named `name`. */
  lemma LookupNoneIff(h: seq<Header>, name: string)
    ensures Lookup(h, name) == None <==> !Contains(h, name)
  {
    ValuesOfEmptyIff(h, name);
  }

  /** Whether a name is present depends on the names of the list only, never on the values. */
  lemma {:induction false} LookupNoneByNames(h: seq<Header>, g: seq<Header>, name: string)
    requires |h| == |g|
    requires forall i :: 0 <= i < |h| ==> h[i].0 == g[i].0
    ensures Lookup(h, name) == None <==> Lookup(g, name) == None
  {
    if h != [] {
      LookupNoneByNames(h[1..], g[1..], name);
    }
    ValuesOfEmptyIff(h, name);
    ValuesOfEmptyIff(g, name);
    if h != [] {
      ValuesOfEmptyIff(h[1..], name);
      ValuesOfEmptyIff(g[1..], name);
    }
  }

  lemma {:induction false} WithoutHasNoValues(h: seq<Header>, name: string)
    ensures ValuesOf(Without(h, name), name) == []
  {
    if h != [] {
      WithoutHasNoValues(h[1..], name);
      ValuesOfConcat(if SameName(h[0].0, name) then [] else [h[0]], Without(h[1..], name), name);
    }
  }

  /** Removing the entries of one name leaves the values of every other name alone. */
  lemma {:induction false} WithoutKeepsOthers(h: seq<Header>, name: string, other: string)
    requires !SameName(other, name)
    ensures ValuesOf(Without(h, name), other) == ValuesOf(h, other)
  {
    if h != [] {
      WithoutKeepsOthers(h[1..], name, other);
      ValuesOfConcat(if SameName(h[0].0, name) then [] else [h[0]], Without(h[1..], name), other);
    }
  }

  lemma {:induction false} WithoutIdempotent(h: seq<Header>, name: string)
    ensures Without(Without(h, name), name) == Without(h, name)
  {
    if h != [] {
      WithoutIdempotent(h[1..], name);
      WithoutConcat(if SameName(h[0].0, name) then [] else [h[0]], Without(h[1..], name), name);
    }
  }

  /** After `set`, the name has exactly one value: the one set. */
  lemma {:induction false} SetEntryValues(h: seq<Header>, name: string, value: string)
    ensures ValuesOf(SetEntry(h, name, value), name) == [value]
  {
    if h == [] {
    } else if SameName(h[0].0, name) {
      WithoutHasNoValues(h[1..], name);
      ValuesOfConcat([(h[0].0, value)], Without(h[1..], name), name);
    } else {
      SetEntryValues(h[1..], name, value);
      ValuesOfConcat([h[0]], SetEntry(h[1..], name, value), name);
    }
  }

  /** `set` leaves every entry of every other name in place and in order. */
  lemma {:induction false} SetEntryKeepsOthers(h: seq<Header>, name: string, value: string)
    ensures Without(SetEntry(h, name, value), name) == Without(h, name)
  {
    if h == [] {
      assert Without([(name, value)], name) == [];
    } else if SameName(h[0].0, name) {
      WithoutIdempotent(h[1..], name);
      WithoutConcat([(h[0].0, value)], Without(h[1..], name), name);
    } else {
      SetEntryKeepsOthers(h[1..], name, value);
      WithoutConcat([h[0]], SetEntry(h[1..], name, value), name);
    }
  }

  /** On a list without the name, `set` is an append. */
  lemma {:induction false} SetEntryWhenAbsent(h: seq<Header>, name: string, value: string)
    requires !Contains(h, name)
    ensures SetEntry(h, name, value) == h + [(name, value)]
  {
    if h != [] {
      assert !SameName(h[0].0, name);
      SetEntryWhenAbsent(h[1..], name, value);
      assert h == [h[0]] + h[1..];
    }
  }

  /** `get` after `set` returns exactly the value set. */
  lemma LookupAfterSet(h: seq<Header>, name: string, value: string)
    ensures Lookup(SetEntry(h, name, value), name) == Some(value)
  {
    SetEntryValues(h, name, value);
  }

  /** `set` of one name changes no value of any other name. */
  lemma SetEntryOtherValues(h: seq<Header>, name: string, value: string, other: string)
    requires !SameName(other, name)
    ensures ValuesOf(SetEntry(h, name, value), other) == ValuesOf(h, other)
  {
    SetEntryKeepsOthers(h, name, value);
    WithoutKeepsOthers(SetEntry(h, name, value), name, other);
    WithoutKeepsOthers(h, name, other);
  }

  /** `append` adds one value at the end of the name's values and touches nothing else. */
  lemma AppendEntry(h: seq<Header>, name: string, value: string)
    ensures ValuesOf(h + [(name, value)], name) == ValuesOf(h, name) + [value]
    ensures Without(h + [(name, value)], name) == Without(h, name)
  {
    ValuesOfConcat(h, [(name, value)], name);
    WithoutConcat(h, [(name, value)], name);
    assert Without([(name, value)], name) == [];
  }

  /** One step of `get`: what looking up a list with one more entry at the end yields. */
  lemma LookupSnoc(h: seq<Header>, e: Header, name: string)
    ensures Lookup(h + [e], name) ==
      if !SameName(e.0, name) then Lookup(h, name)
      else if Lookup(h, name) == None then Some(e.1)
      else Some(Lookup(h, name).value + ", " + e.1)
  {
    ValuesOfConcat(h, [e], name);
    assert [e][1..] == [];
    var vs := ValuesOf(h + [e], name);
    if SameName(e.0, name) {
      assert vs == ValuesOf(h, name) + [e.1];
      if ValuesOf(h, name) != [] {
        assert vs[..|vs| - 1] == ValuesOf(h, name);
      }
    } else {
      assert vs == ValuesOf(h, name);
    }
  }

  /** No two entries of the list share a name. */
  ghost predicate DistinctNames(h: seq<Header>) {
    forall i, j :: 0 <= i < j < |h| ==> !SameName(h[i].0, h[j].0)
  }

  /** In a list whose names are distinct, each entry's name has that entry's value and no other. */
  lemma {:induction false} ValuesOfDistinct(h: seq<Header>, i: nat)
    requires DistinctNames(h) && i < |h|
    ensures ValuesOf(h, h[i].0) == [h[i].1]
  {
    if i == 0 {
      forall k | 0 <= k < |h[1..]|
        ensures !SameName(h[1..][k].0, h[0].0)
      {
        assert h[1..][k] == h[k + 1];
      }
      ValuesOfEmptyIff(h[1..], h[0].0);
    } else {
      assert !SameName(h[0].0, h[i].0);
      assert h[1..][i - 1] == h[i];
      ValuesOfDistinct(h[1..], i - 1);
    }
  }

  /** One step of `set` over the suffix of a list starting at `i`. */
  lemma SetEntryStep(h: seq<Header>, i: nat, name: string, value: string)
    requires i < |h|
    ensures SetEntry(h[i..], name, value) ==
      if SameName(h[i].0, name) then [(h[i].0, value)] + Without(h[i + 1..], name)
      else [h[i]] + SetEntry(h[i + 1..], name, value)
    ensures Without(h[i..], name) ==
      (if SameName(h[i].0, name) then [] else [h[i]]) + Without(h[i + 1..], name)
  {
  }

  /** A header list whose entries are changed in place. */
  class HeaderList {
    var entries: seq<Header>

    constructor (init: seq<Header>)
      ensures entries == init
    {
      entries := init;
    }

    /** The combined value of `name`, or None (JavaScript's null) when absent. */
    method Get(name: string) returns (r: Option<string>)
      ensures r == Lookup(entries, name)
    {
      r := None;
      var i := 0;
      while i < |entries|
        invariant 0 <= i <= |entries|
        invariant r == Lookup(entries[..i], name)
      {
        var e := entries[i];
        LookupSnoc(entries[..i], e, name);
        assert entries[..i + 1] == entries[..i] + [e];
        if SameName(e.0, name) {
          r := if r == None then Some(e.1) else Some(r.value + ", " + e.1);
        }
        i := i + 1;
      }
      assert entries[..i] == entries;
    }

    /** Replaces every entry named `name` by one entry with `value`. */
    method Set(name: string, value: string)
      modifies this
      ensures entries == SetEntry(old(entries), name, value)
    {
      var h := entries;
      var out: seq<Header> := [];
      var found := false;
      var i := 0;
      while i < |h|
        invariant 0 <= i <= |h|
        invariant !found ==> out + SetEntry(h[i..], name, value) == SetEntry(h, name, value)
        invariant found ==> out + Without(h[i..], name) == SetEntry(h, name, value)
      {
        var e := h[i];
        SetEntryStep(h, i, name, value);
        ghost var rest := if found then Without(h[i..], name) else SetEntry(h[i..], name, value);
        ghost var prev := out;
        if !SameName(e.0, name) {
          out := out + [e];
          ghost var next := if found then Without(h[i + 1..], name) else SetEntry(h[i + 1..], name, value);
          assert rest == [e] + next;
          assert out + next == prev + rest;
        } else if !found {
          out := out + [(e.0, value)];
          found := true;
          assert out + Without(h[i + 1..], name) == prev + rest;
        } else {
          assert rest == Without(h[i + 1..], name);
        }
        i := i + 1;
      }
      assert h[i..] == [];
      if !found {
        out := out + [(name, value)];
      }
      entries := out;
    }

    /** Adds (name, value) at the end, keeping every earlier entry. */
    method Append(name: string, value: string)
      modifies this
      ensures entries == old(entries) + [(name, value)]
    {
      entries := entries + [(name, value)];
    }
  }
}
