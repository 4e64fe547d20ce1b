/** The alias store: the values under the registry key Software\TLCS\Alias,
    seen as name/value pairs in enumeration order, and the two operations
    Session.cs performs on them. */
module Aliases {
  import opened Wrappers
  import opened Text

  /** One registry value: an alias name and the process (or processes
      separated by '|') it stands for. */
  datatype Alias = Alias(name: string, value: string)

  /** Registry value names are compared without regard to case (ASCII
      letters only, as Text.ToUpper). */
  predicate SameName(a: string, b: string)
  {
    ToUpper(a) == ToUpper(b)
  }

  /** Registry value names are unique within a key, up to case. */
  ghost predicate UniqueNames(entries: seq<Alias>)
  {
    forall i, j :: 0 <= i < j < |entries| ==> !SameName(entries[i].name, entries[j].name)
  }

  /** RegistryKey.GetValue(name): the value stored under this name, in any
      case. */
  function ValueOf(entries: seq<Alias>, name: string): (r: Option<string>)
    ensures r.Some? ==> exists i :: 0 <= i < |entries| && SameName(entries[i].name, name) && entries[i].value == r.value
  {
    if entries == [] then None
    else if SameName(entries[0].name, name) then Some(entries[0].value)
    else ValueOf(entries[1..], name)
  }

  /** GetValue returns nothing exactly when no value name matches. */
  lemma {:induction false} ValueOfMissing(entries: seq<Alias>, name: string)
    ensures ValueOf(entries, name).None? <==> forall i :: 0 <= i < |entries| ==> !SameName(entries[i].name, name)
  {
    if entries != [] && !SameName(entries[0].name, name) {
      ValueOfMissing(entries[1..], name);
      assert forall i :: 1 <= i < |entries| ==> entries[i] == entries[1..][i - 1];
    }
  }

  /** entries[k] is the first entry whose name contains the query. */
  predicate FirstContaining(entries: seq<Alias>, query: string, k: int)
  {
    0 <= k < |entries| && Contains(entries[k].name, query)
    && forall j :: 0 <= j < k ==> !Contains(entries[j].name, query)
  }

  /** GetAliasProcessString: walks the value names in order and returns the
      value of the first name that contains aliasName; the empty string when
      none does. */
  function GetAliasProcessString(entries: seq<Alias>, aliasName: string): (r: string)
    ensures (forall i :: 0 <= i < |entries| ==> !Contains(entries[i].name, aliasName)) ==> r == ""
    ensures forall k :: FirstContaining(entries, aliasName, k) ==> r == entries[k].value
  {
    if entries == [] then ""
    else if Contains(entries[0].name, aliasName) then entries[0].value
    else
      var r := GetAliasProcessString(entries[1..], aliasName);
      assert forall k :: FirstContaining(entries, aliasName, k) ==> k >= 1 && FirstContaining(entries[1..], aliasName, k - 1);
      r
  }

  /** RegistryKey.SetValue(name, value): overwrites the value of an existing
      name, matched in any case, in place and under its stored spelling, or
      adds the name at the end of the enumeration. */
  function SetValue(entries: seq<Alias>, name: string, value: string): (r: seq<Alias>)
    ensures ValueOf(entries, name).None? ==> r == entries + [Alias(name, value)]
    ensures ValueOf(entries, name).Some? ==> |r| == |entries|
    ensures ValueOf(entries, name).Some? ==> forall i :: 0 <= i < |r| ==> r[i].name == entries[i].name
  {
    if entries == [] then [Alias(name, value)]
    else if SameName(entries[0].name, name) then [Alias(entries[0].name, value)] + entries[1..]
    else
      var rest := SetValue(entries[1..], name, value);
      var r := [entries[0]] + rest;
      assert r[1..] == rest;
      assert entries == [entries[0]] + entries[1..];
      r
  }

  /** After SetValue, the name holds the new value under every spelling
      that differs only in case, and every other name keeps its value. */
  lemma {:induction false} SetValueLookup(entries: seq<Alias>, name: string, value: string)
    ensures forall n {:trigger ValueOf(SetValue(entries, name, value), n)} :: SameName(n, name) ==>
      ValueOf(SetValue(entries, name, value), n) == Some(value)
    ensures forall n {:trigger ValueOf(SetValue(entries, name, value), n)} :: !SameName(n, name) ==>
      ValueOf(SetValue(entries, name, value), n) == ValueOf(entries, n)
  {
    var r := SetValue(entries, name, value);
    if entries == [] {
      SetValueHead(r, entries, name, value);
    } else if SameName(entries[0].name, name) {
      assert r[1..] == entries[1..];
      SetValueHead(r, entries, name, value);
    } else {
      SetValueLookup(entries[1..], name, value);
      assert r[1..] == SetValue(entries[1..], name, value);
      SetValueTail(r, entries, name, value);
    }
  }

  /** The lookups in a key whose first value has just been set. */
  lemma SetValueHead(r: seq<Alias>, entries: seq<Alias>, name: string, value: string)
    requires r != [] && SameName(r[0].name, name) && r[0].value == value
    requires r[1..] == if entries == [] then [] else entries[1..]
    requires entries != [] ==> r[0].name == entries[0].name
    ensures forall n {:trigger ValueOf(r, n)} :: SameName(n, name) ==> ValueOf(r, n) == Some(value)
    ensures forall n {:trigger ValueOf(r, n)} :: !SameName(n, name) ==> ValueOf(r, n) == ValueOf(entries, n)
  {
  }

  /** The lookups in a key whose first value was kept and the rest set. */
  lemma SetValueTail(r: seq<Alias>, entries: seq<Alias>, name: string, value: string)
    requires entries != [] && r != [] && r[0] == entries[0] && !SameName(r[0].name, name)
    requires forall n {:trigger ValueOf(r[1..], n)} :: SameName(n, name) ==> ValueOf(r[1..], n) == Some(value)
    requires forall n {:trigger ValueOf(r[1..], n)} :: !SameName(n, name) ==> ValueOf(r[1..], n) == ValueOf(entries[1..], n)
    ensures forall n {:trigger ValueOf(r, n)} :: SameName(n, name) ==> ValueOf(r, n) == Some(value)
    ensures forall n {:trigger ValueOf(r, n)} :: !SameName(n, name) ==> ValueOf(r, n) == ValueOf(entries, n)
  {
  }

  /** SetValue keeps the value names of the key unique. */
  lemma {:induction false} SetValueKeepsNamesUnique(entries: seq<Alias>, name: string, value: string)
    requires UniqueNames(entries)
    ensures UniqueNames(SetValue(entries, name, value))
  {
    if entries != [] {
      var tail := entries[1..];
      UniqueSplit(entries);
      var r := SetValue(entries, name, value);
      if SameName(entries[0].name, name) {
        assert r == [Alias(entries[0].name, value)] + tail;
      } else {
        SetValueKeepsNamesUnique(tail, name, value);
        var rest := SetValue(tail, name, value);
        SetValueLookup(tail, name, value);
        assert ValueOf(rest, entries[0].name).None?;
        assert r == [entries[0]] + rest;
      }
      UniqueJoin(r[0], r[1..]);
      assert r == [r[0]] + r[1..];
    }
  }

  /** The first entry of a key with unique names is named nowhere after, in
      any case, and the rest keeps unique names. */
  lemma UniqueSplit(entries: seq<Alias>)
    requires entries != [] && UniqueNames(entries)
    ensures UniqueNames(entries[1..])
    ensures ValueOf(entries[1..], entries[0].name).None?
  {
    var tail := entries[1..];
    forall i | 0 <= i < |tail| ensures tail[i] == entries[i + 1] {
    }
    ValueOfMissing(tail, entries[0].name);
  }

  /** An entry whose name appears nowhere in a key with unique names can be
      put in front of it. */
  lemma UniqueJoin(e: Alias, rest: seq<Alias>)
    requires UniqueNames(rest) && ValueOf(rest, e.name).None?
    ensures UniqueNames([e] + rest)
  {
    ValueOfMissing(rest, e.name);
    var r := [e] + rest;
    forall i | 1 <= i < |r| ensures r[i] == rest[i - 1] {
    }
  }
}
