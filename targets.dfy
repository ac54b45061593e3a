/**
 * Target-database selection in `runMysql`: the rows of `SHOW DATABASES` are
 * walked in server order and each name that passes the prefix/ignore test is
 * appended to the list of databases the query will run against.
 */
module Targets {
  import opened Wrappers
  import opened GoStrings

  /**
   * The keep-decision as the program writes it: the ignore string is looked at
   * only when a prefix is set, and Go's Contains(name, "") is true, so a prefix
   * with an empty ignore string rejects every name.
   */
  predicate Keep(name: string, prefix: string, ignore: string)
  {
    if prefix != "" then HasPrefix(name, prefix) && !Contains(name, ignore) else true
  }

  /**
   * One row of `SHOW DATABASES`. The program discards the error of
   * `rows.Scan`; a failed scan leaves the fresh name variable at "".
   */
  function NameOf(row: Option<string>): string
  {
    match row
    case Some(name) => name
    case None => ""
  }

  /** The names as the loop sees them, in server order. */
  function Listed(rows: seq<Option<string>>): (names: seq<string>)
    ensures |names| == |rows|
    ensures forall i :: 0 <= i < |rows| && rows[i].Some? ==> names[i] == rows[i].value
    ensures forall i :: 0 <= i < |rows| && rows[i].None? ==> names[i] == ""
  {
    seq(|rows|, i requires 0 <= i < |rows| => NameOf(rows[i]))
  }

  /** The names that `keep` accepts, in their original order. */
  function Filter(names: seq<string>, keep: string -> bool): seq<string>
  {
    if names == [] then []
    else
      var last := names[|names| - 1];
      Filter(names[..|names| - 1], keep) + (if keep(last) then [last] else [])
  }

  /** The target list the program builds. */
  function Selected(names: seq<string>, prefix: string, ignore: string): seq<string>
  {
    Filter(names, n => Keep(n, prefix, ignore))
  }

  /** The loop at cmd/root.go:61-72, appending to the target list as it walks the rows. */
  method SelectTargets(rows: seq<Option<string>>, prefix: string, ignore: string)
    returns (targets: seq<string>)
    ensures targets == Selected(Listed(rows), prefix, ignore)
  {
    ghost var names := Listed(rows);
    targets := [];
    var i := 0;
    while i < |rows|
      invariant 0 <= i <= |rows|
      invariant targets == Selected(names[..i], prefix, ignore)
    {
      var databaseName := NameOf(rows[i]);
      assert names[..i + 1][..i] == names[..i];
      if prefix != "" {
        if HasPrefix(databaseName, prefix) && !Contains(databaseName, ignore) {
          targets := targets + [databaseName];
        }
      } else {
        targets := targets + [databaseName];
      }
      i := i + 1;
    }
    assert names[..|rows|] == names;
  }

  /** Filtering one more name extends the result by that name exactly when it is kept. */
  lemma FilterSnoc(names: seq<string>, x: string, keep: string -> bool)
    ensures Filter(names + [x], keep) == Filter(names, keep) + (if keep(x) then [x] else [])
  {
    assert (names + [x])[..|names|] == names;
  }

  lemma SelectedSnoc(names: seq<string>, x: string, prefix: string, ignore: string)
    ensures Selected(names + [x], prefix, ignore) ==
            Selected(names, prefix, ignore) + (if Keep(x, prefix, ignore) then [x] else [])
  {
    FilterSnoc(names, x, n => Keep(n, prefix, ignore));
  }

  /** `a` can be obtained from `b` by deleting elements: order is kept, nothing is added. */
  ghost predicate IsSubsequence(a: seq<string>, b: seq<string>)
  {
    a == [] ||
    (b != [] &&
     (IsSubsequence(a, b[..|b| - 1]) ||
      (a[|a| - 1] == b[|b| - 1] && IsSubsequence(a[..|a| - 1], b[..|b| - 1]))))
  }

  /** Filtering keeps the server order and adds nothing. */
  lemma {:induction false} FilterIsSubsequence(names: seq<string>, keep: string -> bool)
    ensures IsSubsequence(Filter(names, keep), names)
  {
    if names != [] {
      var init, last := names[..|names| - 1], names[|names| - 1];
      FilterIsSubsequence(init, keep);
      var r := Filter(names, keep);
      if keep(last) {
        assert r == Filter(init, keep) + [last];
        assert r[..|r| - 1] == Filter(init, keep);
        assert r[|r| - 1] == last;
      } else {
        assert r == Filter(init, keep);
      }
    }
  }

  /** Filtering neither duplicates nor drops a kept name: each occurs as often as in the input. */
  lemma {:induction false} FilterCount(names: seq<string>, keep: string -> bool, x: string)
    ensures multiset(Filter(names, keep))[x] == if keep(x) then multiset(names)[x] else 0
  {
    if names != [] {
      var init, last := names[..|names| - 1], names[|names| - 1];
      FilterCount(init, keep, x);
      assert names == init + [last];
    }
  }

  /** The selected names are a subsequence of the server's list. */
  lemma SelectedIsSubsequence(names: seq<string>, prefix: string, ignore: string)
    ensures IsSubsequence(Selected(names, prefix, ignore), names)
  {
    FilterIsSubsequence(names, n => Keep(n, prefix, ignore));
  }

  /** Each selected name occurs exactly as often as on the server's list, and a rejected one not at all. */
  lemma SelectedCount(names: seq<string>, prefix: string, ignore: string, x: string)
    ensures multiset(Selected(names, prefix, ignore))[x] ==
            if Keep(x, prefix, ignore) then multiset(names)[x] else 0
  {
    FilterCount(names, n => Keep(n, prefix, ignore), x);
  }

  /** With a prefix set, a name is selected iff it is listed, starts with the prefix and does not contain the ignore string. */
  lemma SelectedWithPrefix(names: seq<string>, prefix: string, ignore: string, x: string)
    requires prefix != ""
    ensures x in Selected(names, prefix, ignore) <==>
            x in names && HasPrefix(x, prefix) && !Contains(x, ignore)
  {
    SelectedCount(names, prefix, ignore, x);
  }

  /** Without a prefix every listed name is selected, whatever the ignore string. */
  lemma {:induction false} EmptyPrefixSelectsAll(names: seq<string>, ignore: string)
    ensures Selected(names, "", ignore) == names
  {
    if names != [] {
      EmptyPrefixSelectsAll(names[..|names| - 1], ignore);
      assert names == names[..|names| - 1] + [names[|names| - 1]];
    }
  }

  /** A prefix with an empty ignore string selects nothing: "" is contained in every name. */
  lemma {:induction false} EmptyIgnoreSelectsNothing(names: seq<string>, prefix: string)
    requires prefix != ""
    ensures Selected(names, prefix, "") == []
  {
    if names != [] {
      EmptyIgnoreSelectsNothing(names[..|names| - 1], prefix);
      ContainsEmpty(names[|names| - 1]);
    }
  }

  /** The three verdicts behind PrefixAndIgnoreScenario. */
  lemma PrefixAndIgnoreVerdicts()
    ensures Keep("app_1", "app_", "temp")
    ensures !Keep("app_temp", "app_", "temp")
    ensures Keep("app_2", "app_", "temp")
  {
    MissingCharNotContained("app_1", "temp", 0);
    assert OccursAt("app_temp", "temp", 4);
    ContainsIffOccurs("app_temp", "temp");
    MissingCharNotContained("app_2", "temp", 0);
  }

  /** Selected on a list of three names, one verdict at a time. */
  lemma SelectedThree(x: string, y: string, z: string, prefix: string, ignore: string)
    ensures Selected([x, y, z], prefix, ignore) ==
            (if Keep(x, prefix, ignore) then [x] else []) +
            (if Keep(y, prefix, ignore) then [y] else []) +
            (if Keep(z, prefix, ignore) then [z] else [])
  {
    SelectedSnoc([], x, prefix, ignore);
    assert [] + [x] == [x];
    SelectedSnoc([x], y, prefix, ignore);
    assert [x] + [y] == [x, y];
    SelectedSnoc([x, y], z, prefix, ignore);
    assert [x, y] + [z] == [x, y, z];
  }

  /** Prefix "app_" and ignore "temp" drop the temporary database. */
  lemma PrefixAndIgnoreScenario()
    ensures Selected(["app_1", "app_temp", "app_2"], "app_", "temp") == ["app_1", "app_2"]
  {
    PrefixAndIgnoreVerdicts();
    SelectedThree("app_1", "app_temp", "app_2", "app_", "temp");
  }

  /** As written: a prefix without an ignore string selects nothing, not the names with that prefix. */
  lemma PrefixOnlyScenarioAsWritten()
    ensures Selected(["app_1", "app_2", "other"], "app_", "") == []
  {
    EmptyIgnoreSelectsNothing(["app_1", "app_2", "other"], "app_");
  }

  /** As written: without a prefix the ignore string is not consulted, so an ignored name is still selected. */
  lemma IgnoreWithoutPrefixAsWritten()
    ensures Selected(["app_temp"], "", "temp") == ["app_temp"]
  {
    EmptyPrefixSelectsAll(["app_temp"], "temp");
  }

  /**
   * The filter the flags describe ("match multiple names by prefix", "ignore
   * any database containing this string"): each part applies only when set.
   */
  predicate IntendedKeep(name: string, prefix: string, ignore: string)
  {
    (prefix == "" || HasPrefix(name, prefix)) && (ignore == "" || !Contains(name, ignore))
  }

  function IntendedSelected(names: seq<string>, prefix: string, ignore: string): seq<string>
  {
    Filter(names, n => IntendedKeep(n, prefix, ignore))
  }

  lemma IntendedSelectedSnoc(names: seq<string>, x: string, prefix: string, ignore: string)
    ensures IntendedSelected(names + [x], prefix, ignore) ==
            IntendedSelected(names, prefix, ignore) + (if IntendedKeep(x, prefix, ignore) then [x] else [])
  {
    FilterSnoc(names, x, n => IntendedKeep(n, prefix, ignore));
  }

  /**
   * The corrected filter selects {listed names matching the prefix} minus
   * {names containing the ignore string}, in server order.
   */
  lemma IntendedSelectedIsDifference(names: seq<string>, prefix: string, ignore: string, x: string)
    ensures IsSubsequence(IntendedSelected(names, prefix, ignore), names)
    ensures x in IntendedSelected(names, prefix, ignore) <==>
            x in names && (prefix == "" || HasPrefix(x, prefix)) && (ignore == "" || !Contains(x, ignore))
  {
    FilterIsSubsequence(names, n => IntendedKeep(n, prefix, ignore));
    FilterCount(names, n => IntendedKeep(n, prefix, ignore), x);
  }

  /** IntendedSelected on a list of three names, one verdict at a time. */
  lemma IntendedSelectedThree(x: string, y: string, z: string, prefix: string, ignore: string)
    ensures IntendedSelected([x, y, z], prefix, ignore) ==
            (if IntendedKeep(x, prefix, ignore) then [x] else []) +
            (if IntendedKeep(y, prefix, ignore) then [y] else []) +
            (if IntendedKeep(z, prefix, ignore) then [z] else [])
  {
    IntendedSelectedSnoc([], x, prefix, ignore);
    assert [] + [x] == [x];
    IntendedSelectedSnoc([x], y, prefix, ignore);
    assert [x] + [y] == [x, y];
    IntendedSelectedSnoc([x, y], z, prefix, ignore);
    assert [x, y] + [z] == [x, y, z];
  }

  /** Corrected: a prefix without an ignore string selects the names with that prefix. */
  lemma IntendedPrefixOnlyScenario()
    ensures IntendedSelected(["app_1", "app_2", "other"], "app_", "") == ["app_1", "app_2"]
  {
    assert !HasPrefix("other", "app_") by { assert "other"[0] == 'o'; }
    assert HasPrefix("app_1", "app_") && HasPrefix("app_2", "app_");
    IntendedSelectedThree("app_1", "app_2", "other", "app_", "");
  }

  /** Corrected: the ignore string applies without a prefix too. */
  lemma IntendedIgnoreOnlyScenario()
    ensures IntendedSelected(["app_temp"], "", "temp") == []
  {
    assert OccursAt("app_temp", "temp", 4);
    ContainsIffOccurs("app_temp", "temp");
    IntendedSelectedSnoc([], "app_temp", "", "temp");
    assert [] + ["app_temp"] == ["app_temp"];
  }
}
