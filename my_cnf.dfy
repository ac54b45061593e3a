/**
 * The merge of a MySQL option file into the connection settings, as
 * `loadMyCnf` does it: sections in file order, and for each of five keys a
 * non-empty value that differs from the current one replaces it.
 */
module MyCnf {

  /** One ini section: its keys and their values. */
  type Section = map<string, string>

  /** go-ini's `Key(k).String()`: a key the section does not have reads as "". */
  function Value(section: Section, key: string): string
  {
    if key in section then section[key] else ""
  }

  /** The five settings the option file can supply. */
  datatype Field = Host | Port | DbName | User | Password

  /** The ini key for each setting. */
  function KeyName(f: Field): string
  {
    match f
    case Host => "host"
    case Port => "port"
    case DbName => "dbname"
    case User => "user"
    case Password => "password"
  }

  /** The values of the process-wide `dbHost`, `dbPort`, `dbName`, `dbUser` and `dbPass`. */
  datatype DbSettings = DbSettings(host: string, port: string, dbname: string, user: string, password: string)

  function Get(c: DbSettings, f: Field): string
  {
    match f
    case Host => c.host
    case Port => c.port
    case DbName => c.dbname
    case User => c.user
    case Password => c.password
  }

  /** One `if v != "" && v != current { current = v }` of cmd/root.go:261-275. */
  function Override(current: string, v: string): (r: string)
    ensures r == if v == "" then current else v
  {
    if v != "" && v != current then v else current
  }

  /** One iteration of the section loop. */
  function ApplySection(c: DbSettings, s: Section): DbSettings
  {
    DbSettings(
      Override(c.host, Value(s, "host")),
      Override(c.port, Value(s, "port")),
      Override(c.dbname, Value(s, "dbname")),
      Override(c.user, Value(s, "user")),
      Override(c.password, Value(s, "password")))
  }

  /** One section updates each setting from its own key only. */
  lemma ApplySectionFields(c: DbSettings, s: Section, f: Field)
    ensures Get(ApplySection(c, s), f) == Override(Get(c, f), Value(s, KeyName(f)))
  {
  }

  /** The settings after `loadMyCnf` has walked `sections` in order. */
  function Merge(c: DbSettings, sections: seq<Section>): DbSettings
  {
    if sections == [] then c
    else ApplySection(Merge(c, sections[..|sections| - 1]), sections[|sections| - 1])
  }

  /** Merging one more section is applying it to the merge of the earlier ones. */
  lemma MergeStep(c: DbSettings, sections: seq<Section>, i: nat)
    requires i < |sections|
    ensures Merge(c, sections[..i + 1]) == ApplySection(Merge(c, sections[..i]), sections[i])
  {
    assert sections[..i + 1][..i] == sections[..i];
  }

  /** The values the sections give for one key, in file order. */
  function Column(sections: seq<Section>, key: string): (vs: seq<string>)
    ensures |vs| == |sections|
    ensures forall i :: 0 <= i < |sections| ==> vs[i] == Value(sections[i], key)
  {
    seq(|sections|, i requires 0 <= i < |sections| => Value(sections[i], key))
  }

  /** The last non-empty value of `vs`, or `d` when there is none. */
  function LastNonEmpty(vs: seq<string>, d: string): string
  {
    if vs == [] then d
    else if vs[|vs| - 1] != "" then vs[|vs| - 1]
    else LastNonEmpty(vs[..|vs| - 1], d)
  }

  /** LastNonEmpty is what its name says: either some non-empty value with only empty ones after it, or `d` when all are empty. */
  lemma {:induction false} LastNonEmptyIs(vs: seq<string>, d: string)
    ensures var r := LastNonEmpty(vs, d);
            (exists j :: 0 <= j < |vs| && vs[j] == r != "" && forall k :: j < k < |vs| ==> vs[k] == "") ||
            (r == d && forall k :: 0 <= k < |vs| ==> vs[k] == "")
  {
    if vs == [] {
    } else if vs[|vs| - 1] != "" {
      var j := |vs| - 1;
      assert vs[j] == LastNonEmpty(vs, d) != "";
    } else {
      var init := vs[..|vs| - 1];
      LastNonEmptyIs(init, d);
      var r := LastNonEmpty(init, d);
      assert LastNonEmpty(vs, d) == r;
      assert forall k :: 0 <= k < |init| ==> init[k] == vs[k];
      if exists j :: 0 <= j < |init| && init[j] == r != "" && forall k :: j < k < |init| ==> init[k] == "" {
        var j :| 0 <= j < |init| && init[j] == r != "" && forall k :: j < k < |init| ==> init[k] == "";
        assert vs[j] == r && forall k :: j < k < |vs| ==> vs[k] == "";
      } else {
        assert r == d && forall k :: 0 <= k < |vs| ==> vs[k] == "";
      }
    }
  }

  /** Feeding the same values twice gives what feeding them once gives. */
  lemma {:induction false} LastNonEmptyTwice(vs: seq<string>, d: string)
    ensures LastNonEmpty(vs, LastNonEmpty(vs, d)) == LastNonEmpty(vs, d)
  {
    if vs != [] && vs[|vs| - 1] == "" {
      LastNonEmptyTwice(vs[..|vs| - 1], d);
    }
  }

  lemma ColumnInit(sections: seq<Section>, key: string)
    requires sections != []
    ensures Column(sections[..|sections| - 1], key) == Column(sections, key)[..|sections| - 1]
  {
  }

  /** Each setting ends up as the last non-empty value the sections give for its key, or unchanged if none does. */
  lemma {:induction false} MergeIsLastNonEmpty(c: DbSettings, sections: seq<Section>, f: Field)
    ensures Get(Merge(c, sections), f) == LastNonEmpty(Column(sections, KeyName(f)), Get(c, f))
  {
    if sections != [] {
      MergeIsLastNonEmpty(c, sections[..|sections| - 1], f);
      ColumnInit(sections, KeyName(f));
      ApplySectionFields(Merge(c, sections[..|sections| - 1]), sections[|sections| - 1], f);
    }
  }

  /** A key for which no section gives a non-empty value keeps its setting. */
  lemma MergeKeepsUnset(c: DbSettings, sections: seq<Section>, f: Field)
    requires forall i :: 0 <= i < |sections| ==> Value(sections[i], KeyName(f)) == ""
    ensures Get(Merge(c, sections), f) == Get(c, f)
  {
    MergeIsLastNonEmpty(c, sections, f);
    LastNonEmptyIs(Column(sections, KeyName(f)), Get(c, f));
  }

  /** A setting supplied by some section ends up as the value of the last section that supplies it. */
  lemma MergeTakesLastSupplied(c: DbSettings, sections: seq<Section>, f: Field, j: nat)
    requires j < |sections| && Value(sections[j], KeyName(f)) != ""
    requires forall k :: j < k < |sections| ==> Value(sections[k], KeyName(f)) == ""
    ensures Get(Merge(c, sections), f) == Value(sections[j], KeyName(f))
  {
    MergeIsLastNonEmpty(c, sections, f);
    var vs := Column(sections, KeyName(f));
    LastNonEmptyIs(vs, Get(c, f));
  }

  /** The settings do not affect each other: a field's result depends only on its own start value. */
  lemma MergeFieldsIndependent(c: DbSettings, c': DbSettings, sections: seq<Section>, f: Field)
    requires Get(c, f) == Get(c', f)
    ensures Get(Merge(c, sections), f) == Get(Merge(c', sections), f)
  {
    MergeIsLastNonEmpty(c, sections, f);
    MergeIsLastNonEmpty(c', sections, f);
  }

  /** Loading the same option file twice is the same as loading it once. */
  lemma MergeIdempotent(c: DbSettings, sections: seq<Section>)
    ensures Merge(Merge(c, sections), sections) == Merge(c, sections)
  {
    var once := Merge(c, sections);
    forall f: Field ensures Get(Merge(once, sections), f) == Get(once, f) {
      MergeIsLastNonEmpty(c, sections, f);
      MergeIsLastNonEmpty(once, sections, f);
      LastNonEmptyTwice(Column(sections, KeyName(f)), Get(c, f));
    }
    var twice := Merge(once, sections);
    assert Get(twice, Host) == Get(once, Host);
    assert Get(twice, Port) == Get(once, Port);
    assert Get(twice, DbName) == Get(once, DbName);
    assert Get(twice, User) == Get(once, User);
    assert Get(twice, Password) == Get(once, Password);
  }
}
