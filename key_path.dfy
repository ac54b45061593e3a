/**
 * Expansion of a leading-home private-key path in `runOverSSH`: a path that
 * contains `~/` loses its first `~` and is joined under the home directory.
 */
module KeyPath {
  import opened Wrappers
  import opened GoStrings

  /** The number of slashes `s` starts with. */
  function LeadingSlashes(s: string): (n: nat)
    ensures n <= |s| && (n == |s| || s[n] != '/')
    ensures forall i :: 0 <= i < n ==> s[i] == '/'
  {
    if s != [] && s[0] == '/' then
      var m := LeadingSlashes(s[1..]);
      assert forall i :: 1 <= i <= m ==> s[i] == s[1..][i - 1];
      m + 1
    else 0
  }

  /** The number of slashes `s` ends with. */
  function TrailingSlashes(s: string): (n: nat)
    ensures n <= |s| && (n == |s| || s[|s| - 1 - n] != '/')
    ensures forall i :: |s| - n <= i < |s| ==> s[i] == '/'
  {
    if s != [] && s[|s| - 1] == '/' then
      var m := TrailingSlashes(s[..|s| - 1]);
      assert forall i :: |s| - 1 - m <= i < |s| - 1 ==> s[i] == s[..|s| - 1][i];
      m + 1
    else 0
  }

  /** `s` without its leading slashes. */
  function TrimLeadingSlashes(s: string): string
  {
    s[LeadingSlashes(s)..]
  }

  /** `s` without its trailing slashes. */
  function TrimTrailingSlashes(s: string): string
  {
    s[..|s| - TrailingSlashes(s)]
  }

  /**
   * `path.Join(dir, rest)`, modelled as concatenation with exactly one `/`
   * at the junction: the slashes on either side of it are merged.
   */
  function Join(dir: string, rest: string): (r: string)
  {
    TrimTrailingSlashes(dir) + "/" + TrimLeadingSlashes(rest)
  }

  /**
   * Join puts exactly one slash at the junction: the part before it is `dir`
   * up to its trailing slashes, the part after it `rest` after its leading ones.
   */
  lemma JoinShape(dir: string, rest: string)
    ensures var r, k := Join(dir, rest), |TrimTrailingSlashes(dir)|;
            k < |r| && r[k] == '/' &&
            r[..k] == TrimTrailingSlashes(dir) && (k == 0 || r[k - 1] != '/') &&
            r[k + 1..] == TrimLeadingSlashes(rest) && (k + 1 == |r| || r[k + 1] != '/')
  {
    var a, b := TrimTrailingSlashes(dir), TrimLeadingSlashes(rest);
    var r := a + "/" + b;
    assert r[..|a|] == a;
    assert r[|a| + 1..] == b;
  }

  /**
   * The key path after cmd/root.go:168-175. `home` is the home directory from
   * `user.Current()`, None when that lookup fails, which is fatal (None here)
   * only when the path needs expanding.
   */
  function Expanded(keyPath: string, home: Option<string>): Option<string>
  {
    if Contains(keyPath, "~/") then
      match home
      case None => None
      case Some(dir) => Some(Join(dir, DeleteFirst(keyPath, '~')))
    else Some(keyPath)
  }

  /** A path without `~/` is left as it is, and the home directory is never consulted. */
  lemma ExpandedWithoutTildeSlash(keyPath: string, home: Option<string>)
    requires !Contains(keyPath, "~/")
    ensures Expanded(keyPath, home) == Some(keyPath)
  {
  }

  /**
   * A path with `~/` loses exactly its first `~` (which may come before the
   * `~/` that triggered the expansion) and is joined under the home directory;
   * without a home directory the run stops.
   */
  lemma ExpandedWithTildeSlash(keyPath: string, home: Option<string>)
    requires Contains(keyPath, "~/")
    ensures '~' in keyPath
    ensures var i := FirstIndex(keyPath, '~');
            Expanded(keyPath, home) ==
              if home.None? then None else Some(Join(home.value, keyPath[..i] + keyPath[i + 1..]))
  {
    ContainsIffOccurs(keyPath, "~/");
    var j :| OccursAt(keyPath, "~/", j);
    assert keyPath[j..j + 2][0] == keyPath[j];
    var i := FirstIndex(keyPath, '~');
    assert DeleteFirst(keyPath, '~') == keyPath[..i] + keyPath[i + 1..];
  }

  /** A slash in front of `rest` is absorbed by the junction. */
  lemma JoinSlashRest(dir: string, rest: string)
    ensures Join(dir, "/" + rest) == Join(dir, rest)
  {
    var t := "/" + rest;
    assert t[0] == '/' && t[1..] == rest;
    assert TrimLeadingSlashes(t) == TrimLeadingSlashes(rest);
  }

  /** The usual case: `~/rest` becomes `rest` under the home directory. */
  lemma ExpandedHomeRelative(rest: string, home: string)
    ensures Expanded("~/" + rest, Some(home)) == Some(Join(home, rest))
  {
    var p := "~/" + rest;
    assert p[0] == '~' && p[1..] == "/" + rest;
    assert Contains(p, "~/") by { assert p[..2] == "~/"; }
    assert DeleteFirst(p, '~') == "/" + rest by {
      assert FirstIndex(p, '~') == 0;
      assert p[..0] + p[1..] == p[1..];
    }
    JoinSlashRest(home, rest);
  }
}
