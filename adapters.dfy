/** The adapter catalogue of the multicast server: which host network
    interfaces are usable, how one is looked up by name, and the list of
    names offered to the user. The host's enumeration of its interfaces is
    an input sequence, in the host's order. */
module Adapters {

  /** A host network interface: its human-readable name, whether it is a
      valid interface, and its interface index. */
  datatype Adapter = Adapter(name: string, valid: bool, index: int)

  /** What a default-constructed interface stands for: invalid, unnamed,
      index 0. The lookup returns it when nothing matches. */
  const NoAdapter := Adapter("", false, 0)

  /** Upper-case of one character (ASCII letters only). */
  function UpperChar(c: char): char
  {
    if 'a' <= c <= 'z' then (c as int - 'a' as int + 'A' as int) as char else c
  }

  /** Upper-case of a string, character by character. */
  function ToUpper(s: string): (r: string)
    ensures |r| == |s|
    ensures forall i :: 0 <= i < |s| ==> r[i] == UpperChar(s[i])
  {
    if s == [] then [] else [UpperChar(s[0])] + ToUpper(s[1..])
  }

  /** `sub` occurs in `s` starting at position `i`. */
  predicate OccursAt(sub: string, s: string, i: int)
  {
    0 <= i && i + |sub| <= |s| && s[i..i + |sub|] == sub
  }

  /** Substring search: does `sub` occur anywhere in `s`? */
  function Contains(s: string, sub: string): (r: bool)
    ensures r <==> exists i :: OccursAt(sub, s, i)
    decreases |s|
  {
    if |sub| <= |s| && s[..|sub|] == sub then
      assert OccursAt(sub, s, 0);
      true
    else if |s| <= |sub| then
      assert |sub| == |s| ==> s[..|sub|] == s[0..|sub|];
      false
    else
      var r := Contains(s[1..], sub);
      assert r ==> exists i :: OccursAt(sub, s, i) by {
        if r {
          var i :| OccursAt(sub, s[1..], i);
          assert s[1..][i..i + |sub|] == s[i + 1..i + 1 + |sub|];
          assert OccursAt(sub, s, i + 1);
        }
      }
      assert (exists i :: OccursAt(sub, s, i)) ==> r by {
        if exists i :: OccursAt(sub, s, i) {
          var i :| OccursAt(sub, s, i);
          assert i != 0 by { assert s[..|sub|] == s[0..|sub|]; }
          assert s[1..][i - 1..i - 1 + |sub|] == s[i..i + |sub|];
          assert OccursAt(sub, s[1..], i - 1);
        }
      }
      r
  }

  /** The adapter filter: an adapter is usable when it is valid and its
      upper-cased name mentions neither "BLUETOOTH" nor "VM". */
  function IsValidNetworkAdapter(a: Adapter): (r: bool)
    ensures r <==> a.valid
                   && (forall i :: !OccursAt("BLUETOOTH", ToUpper(a.name), i))
                   && (forall i :: !OccursAt("VM", ToUpper(a.name), i))
  {
    var upper := ToUpper(a.name);
    if !a.valid then false
    else if !(Contains(upper, "BLUETOOTH") || Contains(upper, "VM")) then true
    else
      assert upper == ToUpper(a.name);
      false
  }

  /** `t` occurs in `s` at position `i` when letter case is ignored. */
  predicate OccursIgnoringCaseAt(t: string, s: string, i: int)
  {
    0 <= i && i + |t| <= |s| && ToUpper(s[i..i + |t|]) == ToUpper(t)
  }

  /** Upper-casing commutes with taking a slice. */
  lemma UpperSlice(s: string, i: int, j: int)
    requires 0 <= i <= j <= |s|
    ensures ToUpper(s[i..j]) == ToUpper(s)[i..j]
  {
    var l, r := ToUpper(s[i..j]), ToUpper(s)[i..j];
    assert |l| == |r|;
    forall k | 0 <= k < |l| ensures l[k] == r[k] {
      assert s[i..j][k] == s[i + k];
    }
  }

  /** A case-insensitive occurrence is an occurrence in the upper-cased text. */
  lemma OccursIgnoringCase(t: string, s: string, i: int)
    ensures OccursIgnoringCaseAt(t, s, i) <==> OccursAt(ToUpper(t), ToUpper(s), i)
  {
    if 0 <= i && i + |t| <= |s| {
      UpperSlice(s, i, i + |t|);
    }
  }

  /** The filter rejects an adapter exactly when it is invalid or its name
      contains "bluetooth" or "vm" in any mix of letter case. */
  lemma AdapterFilterIgnoresCase(a: Adapter)
    ensures IsValidNetworkAdapter(a) <==>
              a.valid
              && (forall i :: !OccursIgnoringCaseAt("bluetooth", a.name, i))
              && (forall i :: !OccursIgnoringCaseAt("vm", a.name, i))
  {
    assert ToUpper("bluetooth") == "BLUETOOTH";
    assert ToUpper("vm") == "VM";
    forall i ensures OccursIgnoringCaseAt("bluetooth", a.name, i) <==> OccursAt("BLUETOOTH", ToUpper(a.name), i) {
      OccursIgnoringCase("bluetooth", a.name, i);
    }
    forall i ensures OccursIgnoringCaseAt("vm", a.name, i) <==> OccursAt("VM", ToUpper(a.name), i) {
      OccursIgnoringCase("vm", a.name, i);
    }
  }

  /** `a` is a usable adapter whose name is exactly `name` (case-sensitive). */
  predicate Matches(a: Adapter, name: string)
  {
    IsValidNetworkAdapter(a) && a.name == name
  }

  /** First usable adapter named `name`, in enumeration order, or NoAdapter. */
  function GetNetworkAdapter(adapters: seq<Adapter>, name: string): (r: Adapter)
    ensures r == NoAdapter || (r in adapters && Matches(r, name))
    ensures r == NoAdapter <==> forall k :: 0 <= k < |adapters| ==> !Matches(adapters[k], name)
  {
    if adapters == [] then NoAdapter
    else if IsValidNetworkAdapter(adapters[0]) && adapters[0].name == name then adapters[0]
    else
      var r := GetNetworkAdapter(adapters[1..], name);
      assert forall k :: 1 <= k < |adapters| ==> adapters[k] == adapters[1..][k - 1];
      r
  }

  /** The lookup returns the earliest matching adapter. */
  lemma {:induction false} GetNetworkAdapterFirstMatch(adapters: seq<Adapter>, name: string, k: int)
    requires 0 <= k < |adapters| && Matches(adapters[k], name)
    requires forall j :: 0 <= j < k ==> !Matches(adapters[j], name)
    ensures GetNetworkAdapter(adapters, name) == adapters[k]
  {
    if k > 0 {
      GetNetworkAdapterFirstMatch(adapters[1..], name, k - 1);
    }
  }

  /** The name-based check: a usable adapter of that exact name exists. */
  function IsValidNetworkAdapterName(adapters: seq<Adapter>, name: string): (r: bool)
    ensures r <==> exists k :: 0 <= k < |adapters| && Matches(adapters[k], name)
  {
    GetNetworkAdapter(adapters, name).valid
  }

  /** Names of the usable adapters, in enumeration order. */
  function EligibleNames(adapters: seq<Adapter>): (names: seq<string>)
    ensures |names| <= |adapters|
  {
    if adapters == [] then []
    else
      var last := adapters[|adapters| - 1];
      EligibleNames(adapters[..|adapters| - 1]) + (if IsValidNetworkAdapter(last) then [last.name] else [])
  }

  /** Filtering keeps the enumeration order: it distributes over concatenation. */
  lemma {:induction false} EligibleNamesAppend(s: seq<Adapter>, t: seq<Adapter>)
    ensures EligibleNames(s + t) == EligibleNames(s) + EligibleNames(t)
    decreases |t|
  {
    if t == [] {
      assert s + t == s;
    } else {
      var t' := t[..|t| - 1];
      assert (s + t)[..|s + t| - 1] == s + t';
      EligibleNamesAppend(s, t');
    }
  }

  /** A name is listed exactly when some usable adapter carries it. */
  lemma {:induction false} EligibleNamesMembers(adapters: seq<Adapter>, name: string)
    ensures name in EligibleNames(adapters) <==> exists k :: 0 <= k < |adapters| && Matches(adapters[k], name)
  {
    if adapters != [] {
      var n := |adapters| - 1;
      var front := adapters[..n];
      EligibleNamesMembers(front, name);
      assert forall k :: 0 <= k < n ==> front[k] == adapters[k];
      if name in EligibleNames(front) {
        var k :| 0 <= k < |front| && Matches(front[k], name);
        assert Matches(adapters[k], name);
      }
    }
  }

  /** The refreshed list offers exactly the names the name-based check accepts. */
  lemma ListedIffAccepted(adapters: seq<Adapter>, name: string)
    ensures name in EligibleNames(adapters) <==> IsValidNetworkAdapterName(adapters, name)
  {
    EligibleNamesMembers(adapters, name);
  }

  /** The caller-owned list of names that a refresh fills in. */
  class NameList {
    var items: seq<string>

    constructor()
      ensures items == []
    {
      items := [];
    }

    method Clear()
      modifies this
      ensures items == []
    {
      items := [];
    }

    method PushBack(s: string)
      modifies this
      ensures items == old(items) + [s]
    {
      items := items + [s];
    }
  }

  /** Clears `list`, then appends the name of every usable adapter in turn. */
  method RefreshNetworkAdapters(adapters: seq<Adapter>, list: NameList)
    modifies list
    ensures list.items == EligibleNames(adapters)
  {
    list.Clear();
    for i := 0 to |adapters|
      invariant list.items == EligibleNames(adapters[..i])
    {
      assert adapters[..i + 1][..i] == adapters[..i];
      if IsValidNetworkAdapter(adapters[i]) {
        list.PushBack(adapters[i].name);
      }
    }
    assert adapters[..|adapters|] == adapters;
  }
}
