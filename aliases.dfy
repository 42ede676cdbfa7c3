/**
 * Alias resolution: the alias table maps an alias to its option's full
 * name, and an alias the table does not know stands for itself.
 */
module Aliases {
  import opened Wrappers
  import opened Entries

  /** `aliases[a] ?? a`. */
  function Resolve(aliases: map<string, string>, a: string): string
  {
    if a in aliases then aliases[a] else a
  }

  /** The `reduce` of `_replaceAliases`, from the accumulator `acc` on. */
  function ReplaceAliasesInto(aliases: map<string, string>, acc: Entries<string>, raw: Entries<string>): (r: Entries<string>)
    decreases |raw|
  {
    if raw == [] then acc
    else ReplaceAliasesInto(aliases, Put(acc, Resolve(aliases, raw[0].0), raw[0].1), raw[1..])
  }

  /**
   * `_replaceAliases`: the raw values re-keyed, in order, by the names their
   * aliases resolve to.
   */
  function ReplaceAliases(aliases: map<string, string>, raw: Entries<string>): (r: Entries<string>)
  {
    ReplaceAliasesInto(aliases, [], raw)
  }

  /** The keys are those already there plus exactly the names the raw keys resolve to. */
  lemma {:induction false} ReplaceAliasesIntoKeys(aliases: map<string, string>, acc: Entries<string>, raw: Entries<string>, k: string)
    ensures k in Keys(ReplaceAliasesInto(aliases, acc, raw)) <==>
      k in Keys(acc) || exists i :: 0 <= i < |raw| && Resolve(aliases, raw[i].0) == k
    decreases |raw|
  {
    if raw != [] {
      var name := Resolve(aliases, raw[0].0);
      var acc' := Put(acc, name, raw[0].1);
      ReplaceAliasesIntoKeys(aliases, acc', raw[1..], k);
      if exists i :: 0 <= i < |raw| - 1 && Resolve(aliases, raw[1..][i].0) == k {
        var i :| 0 <= i < |raw| - 1 && Resolve(aliases, raw[1..][i].0) == k;
        assert raw[1..][i] == raw[i + 1];
      }
      if exists i :: 0 <= i < |raw| && Resolve(aliases, raw[i].0) == k {
        var i :| 0 <= i < |raw| && Resolve(aliases, raw[i].0) == k;
        if i > 0 {
          assert raw[1..][i - 1] == raw[i];
        }
      }
    }
  }

  /**
   * A resolved name carries the value of the last raw key resolving to it:
   * a known alias lands on its full name, an unknown one on itself.
   */
  lemma {:induction false} ReplaceAliasesIntoGet(aliases: map<string, string>, acc: Entries<string>, raw: Entries<string>, i: nat)
    requires i < |raw|
    requires forall j :: i < j < |raw| ==> Resolve(aliases, raw[j].0) != Resolve(aliases, raw[i].0)
    ensures Get(ReplaceAliasesInto(aliases, acc, raw), Resolve(aliases, raw[i].0)) == Some(raw[i].1)
    decreases |raw|
  {
    var acc' := Put(acc, Resolve(aliases, raw[0].0), raw[0].1);
    if i == 0 {
      ReplaceAliasesIntoUntouched(aliases, acc', raw[1..], Resolve(aliases, raw[0].0));
    } else {
      var rest := raw[1..];
      assert forall j :: 0 <= j < |rest| ==> rest[j] == raw[j + 1];
      ReplaceAliasesIntoGet(aliases, acc', rest, i - 1);
    }
  }

  /** A name no raw key resolves to keeps whatever the accumulator had. */
  lemma {:induction false} ReplaceAliasesIntoUntouched(aliases: map<string, string>, acc: Entries<string>, raw: Entries<string>, k: string)
    requires forall j :: 0 <= j < |raw| ==> Resolve(aliases, raw[j].0) != k
    ensures Get(ReplaceAliasesInto(aliases, acc, raw), k) == Get(acc, k)
    decreases |raw|
  {
    if raw != [] {
      assert Resolve(aliases, raw[0].0) != k;
      ReplaceAliasesIntoUntouched(aliases, Put(acc, Resolve(aliases, raw[0].0), raw[0].1), raw[1..], k);
    }
  }
}
