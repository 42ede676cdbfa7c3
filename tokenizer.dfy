/**
 * The first half of `runCLI`: the input is split at its first token that
 * starts with `-`; what precedes is positional, what follows is grouped
 * into option aliases and the value tokens after each, and every group is
 * stored, under the name its alias resolves to in the root's alias table,
 * either as a raw global option (when the root declares a global option of
 * that full name) or as a raw option.
 */
module Tokenizer {
  import opened Wrappers
  import opened Strings
  import opened Entries
  import opened CliTypes
  import opened Aliases

  /** `input.findIndex(t => t.startsWith("-"))`, with "not found" as `|input|`. */
  function FirstOptionIndex(input: seq<string>): (i: nat)
    ensures i <= |input|
    ensures forall j :: 0 <= j < i ==> !IsOptionAlias(input[j])
    ensures i < |input| ==> IsOptionAlias(input[i])
  {
    if |input| == 0 || IsOptionAlias(input[0]) then 0 else 1 + FirstOptionIndex(input[1..])
  }

  /**
   * The positional tokens and the rest. Together they are the input; no
   * positional token starts with `-`, and the rest, if any, starts with one.
   */
  function SplitInput(input: seq<string>): (r: (seq<string>, seq<string>))
    ensures r.0 + r.1 == input
    ensures forall j :: 0 <= j < |r.0| ==> !IsOptionAlias(r.0[j])
    ensures r.1 == [] || IsOptionAlias(r.1[0])
  {
    var i := FirstOptionIndex(input);
    assert input[..i] + input[i..] == input;
    (input[..i], input[i..])
  }

  /** An alias with the value tokens collected after it. */
  type Group = (string, seq<string>)

  /** The groups of `t`, given the group still open when `t` begins. */
  function Scan(t: seq<string>, open: Option<Group>): seq<Group>
    decreases |t|
  {
    if |t| == 0 then Closed(open)
    else if IsOptionAlias(t[0]) then Closed(open) + Scan(t[1..], Some((t[0], [])))
    else if open.Some? then Scan(t[1..], Some((open.value.0, open.value.1 + [t[0]])))
    else Scan(t[1..], None)
  }

  function Closed(open: Option<Group>): seq<Group>
  {
    if open.Some? then [open.value] else []
  }

  /**
   * The alias groups of a token list: each alias with the value tokens that
   * follow it up to the next alias. Value tokens before the first alias
   * belong to no group.
   */
  function Groups(t: seq<string>): seq<Group>
  {
    Scan(t, None)
  }

  /** The tokens of the groups, each alias followed by its values. */
  function Flatten(gs: seq<Group>): seq<string>
  {
    if gs == [] then [] else [gs[0].0] + gs[0].1 + Flatten(gs[1..])
  }

  predicate NoAlias(t: seq<string>)
  {
    forall j :: 0 <= j < |t| ==> !IsOptionAlias(t[j])
  }

  /** Every group is an alias followed by tokens that are not aliases. */
  predicate WellFormed(gs: seq<Group>)
  {
    forall i :: 0 <= i < |gs| ==> IsOptionAlias(gs[i].0) && NoAlias(gs[i].1)
  }

  /** The raw values `runCLI` hands on: options and global options, keyed by full name. */
  datatype RawArgs = RawArgs(options: Entries<string>, globals: Entries<string>)

  /** The root declares a global option of this full name. */
  predicate IsGlobalTarget(globalParams: Entries<Param>, name: string)
  {
    IsFullOptionName(name) && name in Keys(globalParams)
  }

  /** Store one group: its values joined by one space, under its resolved name. */
  function Route(aliases: map<string, string>, globalParams: Entries<Param>, acc: RawArgs, g: Group): RawArgs
  {
    var name := Resolve(aliases, g.0);
    var rawValue := Join(g.1, " ");
    if IsGlobalTarget(globalParams, name) then acc.(globals := Put(acc.globals, name, rawValue))
    else acc.(options := Put(acc.options, name, rawValue))
  }

  /** The bucket a name is stored in. */
  function Bucket(globalParams: Entries<Param>, r: RawArgs, name: string): Entries<string>
  {
    if IsGlobalTarget(globalParams, name) then r.globals else r.options
  }

  /** A routed group's value is found in its name's bucket. */
  lemma RouteGet(aliases: map<string, string>, globalParams: Entries<Param>, acc: RawArgs, g: Group)
    ensures Get(Bucket(globalParams, Route(aliases, globalParams, acc, g), Resolve(aliases, g.0)), Resolve(aliases, g.0)) == Some(Join(g.1, " "))
  {
  }

  /** Store the groups in order over the buckets `acc`. */
  function RouteFrom(aliases: map<string, string>, globalParams: Entries<Param>, acc: RawArgs, gs: seq<Group>): RawArgs
    decreases |gs|
  {
    if gs == [] then acc
    else RouteFrom(aliases, globalParams, Route(aliases, globalParams, acc, gs[0]), gs[1..])
  }

  /** Store the groups in order, starting from empty buckets. */
  function RouteAll(aliases: map<string, string>, globalParams: Entries<Param>, gs: seq<Group>): RawArgs
  {
    RouteFrom(aliases, globalParams, RawArgs([], []), gs)
  }

  /** What `runCLI` passes to the dispatcher for `input` on the root `cli`. */
  function RawArgsOf(cli: Cli, input: seq<string>): RawArgs
  {
    RouteAll(cli.aliases, cli.globalOptionArgs, Groups(SplitInput(input).1))
  }

  /** `runCLI`'s tokenizing loop over the rest of the input followed by the sentinel `"-"`. */
  method Tokenize(cli: Cli, input: seq<string>) returns (positional: seq<string>, raw: RawArgs)
    ensures positional == SplitInput(input).0
    ensures raw == RawArgsOf(cli, input)
  {
    var firstOptionIdx := FirstOptionIndex(input);
    positional := input[..firstOptionIdx];
    var rest := input[firstOptionIdx..];
    var tokens := rest + ["-"];
    var options: Entries<string> := [];
    var globals: Entries<string> := [];
    var currentAlias: Option<string> := None;
    var currentVals: seq<string> := [];
    ghost var emitted: seq<Group> := [];
    ScanSentinel(rest, None);
    for j := 0 to |tokens|
      invariant emitted + Scan(tokens[j..], Pending(currentAlias, currentVals)) == Groups(rest) + [("-", [])]
      invariant RawArgs(options, globals) == RouteAll(cli.aliases, cli.globalOptionArgs, emitted)
      invariant 0 < j && IsOptionAlias(tokens[j - 1]) ==> currentAlias == Some(tokens[j - 1]) && currentVals == []
    {
      var argVal := tokens[j];
      ScanStep(tokens, j, emitted, currentAlias, currentVals, Groups(rest) + [("-", [])]);
      if IsOptionAlias(argVal) {
        if currentAlias.Some? {
          ghost var g := (currentAlias.value, currentVals);
          ghost var before := RawArgs(options, globals);
          var rawValue := Join(currentVals, " ");
          var optionName := if currentAlias.value in cli.aliases then cli.aliases[currentAlias.value] else currentAlias.value;
          if IsFullOptionName(optionName) && Get(cli.globalOptionArgs, optionName).Some? {
            globals := Put(globals, optionName, rawValue);
          } else {
            options := Put(options, optionName, rawValue);
          }
          assert RawArgs(options, globals) == Route(cli.aliases, cli.globalOptionArgs, before, g);
          RouteFromSnoc(cli.aliases, cli.globalOptionArgs, RawArgs([], []), emitted, g);
          assert Closed(Pending(currentAlias, currentVals)) == [g];
          emitted := emitted + [g];
        } else {
          assert emitted + Closed(Pending(currentAlias, currentVals)) == emitted;
        }
        currentAlias := Some(argVal);
        currentVals := [];
      } else {
        currentVals := currentVals + [argVal];
      }
    }
    SentinelLast(emitted, Groups(rest));
    raw := RawArgs(options, globals);
  }

  /** The loop's open group. */
  function Pending(alias: Option<string>, vals: seq<string>): Option<Group>
  {
    if alias.Some? then Some((alias.value, vals)) else None
  }

  /** One token of the loop: an alias closes the open group and opens its own; a value joins the open group. */
  lemma ScanStep(tokens: seq<string>, j: nat, emitted: seq<Group>, alias: Option<string>, vals: seq<string>, target: seq<Group>)
    requires j < |tokens|
    requires emitted + Scan(tokens[j..], Pending(alias, vals)) == target
    ensures IsOptionAlias(tokens[j]) ==>
      (emitted + Closed(Pending(alias, vals))) + Scan(tokens[j + 1..], Pending(Some(tokens[j]), [])) == target
    ensures !IsOptionAlias(tokens[j]) ==> emitted + Scan(tokens[j + 1..], Pending(alias, vals + [tokens[j]])) == target
  {
    assert tokens[j..][0] == tokens[j] && tokens[j..][1..] == tokens[j + 1..];
    if IsOptionAlias(tokens[j]) {
      var s := Scan(tokens[j + 1..], Some((tokens[j], [])));
      assert emitted + (Closed(Pending(alias, vals)) + s) == (emitted + Closed(Pending(alias, vals))) + s;
    }
  }

  /** Storing one more group is one more `Route`. */
  lemma {:induction false} RouteFromSnoc(aliases: map<string, string>, globalParams: Entries<Param>, acc: RawArgs, gs: seq<Group>, g: Group)
    ensures RouteFrom(aliases, globalParams, acc, gs + [g]) == Route(aliases, globalParams, RouteFrom(aliases, globalParams, acc, gs), g)
    decreases |gs|
  {
    if gs == [] {
      assert [g][1..] == [];
    } else {
      assert (gs + [g])[0] == gs[0] && (gs + [g])[1..] == gs[1..] + [g];
      RouteFromSnoc(aliases, globalParams, Route(aliases, globalParams, acc, gs[0]), gs[1..], g);
    }
  }

  /** Two group lists that agree once the sentinel's group is appended agree. */
  lemma SentinelLast(emitted: seq<Group>, gs: seq<Group>)
    requires emitted + Closed(Some(("-", []))) == gs + [("-", [])]
    ensures emitted == gs
  {
    assert emitted == (emitted + [("-", [])])[..|emitted|];
    assert gs == (gs + [("-", [])])[..|gs|];
  }

  /** The sentinel `"-"` only closes the last group and opens one that is never stored. */
  lemma {:induction false} ScanSentinel(t: seq<string>, open: Option<Group>)
    ensures Scan(t + ["-"], open) == Scan(t, open) + [("-", [])]
    decreases |t|
  {
    var u := t + ["-"];
    if |t| == 0 {
      assert u == ["-"] && u[1..] == [];
    } else {
      assert u[0] == t[0] && u[1..] == t[1..] + ["-"];
      if IsOptionAlias(t[0]) {
        var next := Some((t[0], []));
        ScanSentinel(t[1..], next);
        assert Closed(open) + (Scan(t[1..], next) + [("-", [])]) == (Closed(open) + Scan(t[1..], next)) + [("-", [])];
      } else if open.Some? {
        ScanSentinel(t[1..], Some((open.value.0, open.value.1 + [t[0]])));
      } else {
        ScanSentinel(t[1..], None);
      }
    }
  }

  /** Value tokens are collected into the open group. */
  lemma {:induction false} ScanValues(vs: seq<string>, rest: seq<string>, a: string, acc: seq<string>)
    requires NoAlias(vs)
    ensures Scan(vs + rest, Some((a, acc))) == Scan(rest, Some((a, acc + vs)))
    decreases |vs|
  {
    if |vs| == 0 {
      assert vs + rest == rest && acc + vs == acc;
    } else {
      assert (vs + rest)[0] == vs[0] && (vs + rest)[1..] == vs[1..] + rest;
      ScanValues(vs[1..], rest, a, acc + [vs[0]]);
      assert (acc + [vs[0]]) + vs[1..] == acc + vs;
    }
  }

  /** Scanning the tokens of well-formed groups gives back those groups. */
  lemma {:induction false} ScanFlatten(gs: seq<Group>, g: Group)
    requires WellFormed(gs)
    ensures Scan(Flatten(gs), Some(g)) == [g] + gs
    decreases |gs|
  {
    if gs != [] {
      var h := gs[0];
      var tail := Flatten(gs[1..]);
      assert Flatten(gs) == [h.0] + (h.1 + tail);
      assert WellFormed(gs[1..]) by {
        forall i | 0 <= i < |gs| - 1
          ensures IsOptionAlias(gs[1..][i].0) && NoAlias(gs[1..][i].1)
        {
          assert gs[1..][i] == gs[i + 1];
        }
      }
      ScanValues(h.1, tail, h.0, []);
      assert [] + h.1 == h.1;
      ScanFlatten(gs[1..], h);
      assert [g] + ([h] + gs[1..]) == [g] + gs;
    }
  }

  /**
   * The grouping is the only one possible: any sequence of groups, each an
   * alias followed by non-alias tokens, whose tokens are `t`, is `Groups(t)`.
   */
  lemma GroupsUnique(gs: seq<Group>)
    requires WellFormed(gs)
    ensures Groups(Flatten(gs)) == gs
  {
    if gs != [] {
      var h := gs[0];
      var tail := Flatten(gs[1..]);
      var t := Flatten(gs);
      assert t == [h.0] + (h.1 + tail);
      assert t[0] == h.0 && t[1..] == h.1 + tail;
      assert Groups(t) == [] + Scan(h.1 + tail, Some((h.0, [])));
      ScanValues(h.1, tail, h.0, []);
      assert [] + h.1 == h.1;
      assert WellFormed(gs[1..]) by {
        forall i | 0 <= i < |gs| - 1
          ensures IsOptionAlias(gs[1..][i].0) && NoAlias(gs[1..][i].1)
        {
          assert gs[1..][i] == gs[i + 1];
        }
      }
      ScanFlatten(gs[1..], h);
    }
  }

  /**
   * A name lands among the global options exactly when the root declares a
   * global option of that full name.
   */
  lemma {:induction false} RouteFromBuckets(aliases: map<string, string>, globalParams: Entries<Param>, acc: RawArgs, gs: seq<Group>, k: string)
    requires k in Keys(acc.globals) ==> IsGlobalTarget(globalParams, k)
    requires k in Keys(acc.options) ==> !IsGlobalTarget(globalParams, k)
    ensures k in Keys(RouteFrom(aliases, globalParams, acc, gs).globals) ==> IsGlobalTarget(globalParams, k)
    ensures k in Keys(RouteFrom(aliases, globalParams, acc, gs).options) ==> !IsGlobalTarget(globalParams, k)
    decreases |gs|
  {
    if gs != [] {
      RouteFromBuckets(aliases, globalParams, Route(aliases, globalParams, acc, gs[0]), gs[1..], k);
    }
  }

  /** Routing one group adds exactly its resolved name to the stored names. */
  lemma RouteNames(aliases: map<string, string>, globalParams: Entries<Param>, acc: RawArgs, g: Group, k: string)
    ensures k in Keys(Route(aliases, globalParams, acc, g).options) || k in Keys(Route(aliases, globalParams, acc, g).globals) <==>
      k in Keys(acc.options) || k in Keys(acc.globals) || Resolve(aliases, g.0) == k
  {
  }

  /** The stored names are those already stored and the names some group's alias resolves to. */
  lemma {:induction false} RouteFromNames(aliases: map<string, string>, globalParams: Entries<Param>, acc: RawArgs, gs: seq<Group>, k: string)
    ensures k in Keys(RouteFrom(aliases, globalParams, acc, gs).options) || k in Keys(RouteFrom(aliases, globalParams, acc, gs).globals) <==>
      k in Keys(acc.options) || k in Keys(acc.globals) || exists i :: 0 <= i < |gs| && Resolve(aliases, gs[i].0) == k
    decreases |gs|
  {
    if gs != [] {
      var acc' := Route(aliases, globalParams, acc, gs[0]);
      var rest := gs[1..];
      RouteFromNames(aliases, globalParams, acc', rest, k);
      RouteNames(aliases, globalParams, acc, gs[0], k);
      var r := RouteFrom(aliases, globalParams, acc, gs);
      assert r == RouteFrom(aliases, globalParams, acc', rest);
      var inRest := exists i :: 0 <= i < |rest| && Resolve(aliases, rest[i].0) == k;
      var inAll := exists i :: 0 <= i < |gs| && Resolve(aliases, gs[i].0) == k;
      if inRest {
        var i :| 0 <= i < |rest| && Resolve(aliases, rest[i].0) == k;
        assert rest[i] == gs[i + 1];
      }
      if inAll {
        var i :| 0 <= i < |gs| && Resolve(aliases, gs[i].0) == k;
        if i > 0 {
          assert rest[i - 1] == gs[i];
        }
      }
      assert inAll <==> Resolve(aliases, gs[0].0) == k || inRest;
    }
  }

  /** The stored names are exactly the resolved aliases of the groups, each in its bucket. */
  lemma RouteAllKeys(aliases: map<string, string>, globalParams: Entries<Param>, gs: seq<Group>, k: string)
    ensures k in Keys(RouteAll(aliases, globalParams, gs).globals) ==> IsGlobalTarget(globalParams, k)
    ensures k in Keys(RouteAll(aliases, globalParams, gs).options) ==> !IsGlobalTarget(globalParams, k)
    ensures k in Keys(RouteAll(aliases, globalParams, gs).options) || k in Keys(RouteAll(aliases, globalParams, gs).globals) <==>
      exists i :: 0 <= i < |gs| && Resolve(aliases, gs[i].0) == k
  {
    RouteFromBuckets(aliases, globalParams, RawArgs([], []), gs, k);
    RouteFromNames(aliases, globalParams, RawArgs([], []), gs, k);
  }

  /** A name no group resolves to keeps what the buckets had. */
  lemma {:induction false} RouteFromUntouched(aliases: map<string, string>, globalParams: Entries<Param>, acc: RawArgs, gs: seq<Group>, k: string)
    requires forall j :: 0 <= j < |gs| ==> Resolve(aliases, gs[j].0) != k
    ensures Get(RouteFrom(aliases, globalParams, acc, gs).options, k) == Get(acc.options, k)
    ensures Get(RouteFrom(aliases, globalParams, acc, gs).globals, k) == Get(acc.globals, k)
    decreases |gs|
  {
    if gs != [] {
      assert Resolve(aliases, gs[0].0) != k;
      RouteFromUntouched(aliases, globalParams, Route(aliases, globalParams, acc, gs[0]), gs[1..], k);
    }
  }

  /**
   * The last group whose alias resolves to a name decides that name's raw
   * value: its value tokens joined by single spaces.
   */
  lemma {:induction false} RouteFromLast(aliases: map<string, string>, globalParams: Entries<Param>, acc: RawArgs, gs: seq<Group>, i: nat)
    requires i < |gs|
    requires forall j :: i < j < |gs| ==> Resolve(aliases, gs[j].0) != Resolve(aliases, gs[i].0)
    ensures Get(Bucket(globalParams, RouteFrom(aliases, globalParams, acc, gs), Resolve(aliases, gs[i].0)), Resolve(aliases, gs[i].0))
      == Some(Join(gs[i].1, " "))
    decreases |gs|
  {
    var acc' := Route(aliases, globalParams, acc, gs[0]);
    var rest := gs[1..];
    assert RouteFrom(aliases, globalParams, acc, gs) == RouteFrom(aliases, globalParams, acc', rest);
    assert forall j :: 0 <= j < |rest| ==> rest[j] == gs[j + 1];
    if i == 0 {
      var name := Resolve(aliases, gs[0].0);
      RouteGet(aliases, globalParams, acc, gs[0]);
      RouteFromUntouched(aliases, globalParams, acc', rest, name);
      StaysInBucket(globalParams, acc', RouteFrom(aliases, globalParams, acc', rest), name);
    } else {
      assert rest[i - 1] == gs[i];
      RouteFromLast(aliases, globalParams, acc', rest, i - 1);
    }
  }

  /** A name whose entries in both buckets are unchanged is unchanged in its own bucket. */
  lemma StaysInBucket(globalParams: Entries<Param>, r: RawArgs, r': RawArgs, name: string)
    requires Get(r'.options, name) == Get(r.options, name)
    requires Get(r'.globals, name) == Get(r.globals, name)
    ensures Get(Bucket(globalParams, r', name), name) == Get(Bucket(globalParams, r, name), name)
  {
  }

  /** Neither bucket ever holds a name twice. */
  lemma {:induction false} RouteFromUnique(aliases: map<string, string>, globalParams: Entries<Param>, acc: RawArgs, gs: seq<Group>)
    requires UniqueKeys(acc.options) && UniqueKeys(acc.globals)
    ensures UniqueKeys(RouteFrom(aliases, globalParams, acc, gs).options)
    ensures UniqueKeys(RouteFrom(aliases, globalParams, acc, gs).globals)
    decreases |gs|
  {
    if gs != [] {
      var g := gs[0];
      PutKeepsUnique(acc.options, Resolve(aliases, g.0), Join(g.1, " "));
      PutKeepsUnique(acc.globals, Resolve(aliases, g.0), Join(g.1, " "));
      RouteFromUnique(aliases, globalParams, Route(aliases, globalParams, acc, g), gs[1..]);
    }
  }

  /** `findIndex` stops at the first alias. */
  lemma {:induction false} FirstOptionIndexIs(input: seq<string>, n: nat)
    requires n <= |input|
    requires forall j :: 0 <= j < n ==> !IsOptionAlias(input[j])
    requires n < |input| ==> IsOptionAlias(input[n])
    ensures FirstOptionIndex(input) == n
  {
    if n > 0 {
      FirstOptionIndexIs(input[1..], n - 1);
    }
  }

  /** The split point of positional tokens followed by option groups is where the groups begin. */
  lemma SplitAt(p: seq<string>, f: seq<string>)
    requires NoAlias(p)
    requires f == [] || IsOptionAlias(f[0])
    ensures SplitInput(p + f) == (p, f)
  {
    var input := p + f;
    FirstOptionIndexIs(input, |p|);
    assert input[..|p|] == p && input[|p|..] == f;
  }

  /**
   * Every input is positional tokens followed by alias groups, and what the
   * tokenizer stores is exactly those groups routed in order.
   */
  lemma RawArgsOfGroups(cli: Cli, p: seq<string>, gs: seq<Group>)
    requires NoAlias(p)
    requires WellFormed(gs)
    ensures SplitInput(p + Flatten(gs)).0 == p
    ensures RawArgsOf(cli, p + Flatten(gs)) == RouteAll(cli.aliases, cli.globalOptionArgs, gs)
  {
    var f := Flatten(gs);
    if gs != [] {
      assert f == [gs[0].0] + gs[0].1 + Flatten(gs[1..]);
    }
    SplitAt(p, f);
    GroupsUnique(gs);
  }

  /**
   * A negative number is read as an alias: with no aliases and no global
   * options, `["--age", "-1"]` stores `""` under `--age` and under `-1`.
   */
  lemma NegativeValueIsAlias(cli: Cli)
    requires cli.aliases == map[]
    requires cli.globalOptionArgs == []
    ensures RawArgsOf(cli, ["--age", "-1"]) == RawArgs([("--age", ""), ("-1", "")], [])
  {
    var gs: seq<Group> := [("--age", []), ("-1", [])];
    assert IsOptionAlias(gs[0].0) && IsOptionAlias(gs[1].0);
    assert Flatten(gs[1..]) == ["-1"];
    assert Flatten(gs) == ["--age", "-1"];
    RawArgsOfGroups(cli, [], gs);
    assert [] + Flatten(gs) == ["--age", "-1"];
    RouteTwoBareAliases(cli);
  }

  lemma RouteTwoBareAliases(cli: Cli)
    requires cli.aliases == map[]
    requires cli.globalOptionArgs == []
    ensures RouteAll(cli.aliases, cli.globalOptionArgs, [("--age", []), ("-1", [])]) == RawArgs([("--age", ""), ("-1", "")], [])
  {
    var gs: seq<Group> := [("--age", []), ("-1", [])];
    var r0 := RawArgs([], []);
    var r1 := Route(cli.aliases, cli.globalOptionArgs, r0, gs[0]);
    assert r1 == RawArgs([("--age", "")], []);
    var r2 := Route(cli.aliases, cli.globalOptionArgs, r1, gs[1]);
    assert |"--age"| != |"-1"|;
    var single: Entries<string> := [("--age", "")];
    assert Assign(single, "-1", "") == [single[0]] + Assign(single[1..], "-1", "");
    assert Assign(single[1..], "-1", "") == [("-1", "")];
    assert Resolve(cli.aliases, "-1") == "-1" && Join([], " ") == "";
    assert !IsGlobalTarget(cli.globalOptionArgs, "-1");
    assert r2 == r1.(options := Put(single, "-1", ""));
    assert r2 == RawArgs([("--age", ""), ("-1", "")], []);
    assert gs[1..][1..] == [];
    assert RouteFrom(cli.aliases, cli.globalOptionArgs, r1, gs[1..]) == RouteFrom(cli.aliases, cli.globalOptionArgs, r2, []);
  }
}
