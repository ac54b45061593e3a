/**
 * The process-wide settings of package `cmd` that the core updates in place:
 * the connection settings `loadMyCnf` overwrites and the key path the
 * tilde expansion rewrites.
 */
module Cmd {
  import opened Wrappers
  import opened GoStrings
  import opened MyCnf
  import opened KeyPath

  class Globals {
    var dbHost: string
    var dbPort: string
    var dbName: string
    var dbUser: string
    var dbPass: string
    var privkeyPath: string

    /** The connection settings as one value. */
    function Settings(): DbSettings
      reads this
    {
      DbSettings(dbHost, dbPort, dbName, dbUser, dbPass)
    }

    /** The globals as the flags leave them. */
    constructor (settings: DbSettings, keyPath: string)
      ensures Settings() == settings && privkeyPath == keyPath
    {
      dbHost, dbPort, dbName, dbUser, dbPass := settings.host, settings.port, settings.dbname, settings.user, settings.password;
      privkeyPath := keyPath;
    }

    /** `loadMyCnf` (cmd/root.go:259-277): walk the sections in order, overwriting each setting a section supplies. */
    method LoadMyCnf(sections: seq<Section>)
      modifies this
      ensures Settings() == Merge(old(Settings()), sections)
      ensures privkeyPath == old(privkeyPath)
    {
      for i := 0 to |sections|
        invariant Settings() == Merge(old(Settings()), sections[..i])
        invariant privkeyPath == old(privkeyPath)
      {
        LoadSection(sections[i]);
        MergeStep(old(Settings()), sections, i);
      }
      assert sections[..|sections|] == sections;
    }

    /**
     * The body of the section loop (cmd/root.go:261-275). Each of its five
     * `if v != "" && v != current { current = v }` statements is an
     * assignment through `Override`, which is that statement.
     */
    method LoadSection(s: Section)
      modifies this
      ensures Settings() == ApplySection(old(Settings()), s)
      ensures privkeyPath == old(privkeyPath)
    {
      dbHost := Override(dbHost, Value(s, "host"));
      dbPort := Override(dbPort, Value(s, "port"));
      dbName := Override(dbName, Value(s, "dbname"));
      dbUser := Override(dbUser, Value(s, "user"));
      dbPass := Override(dbPass, Value(s, "password"));
    }

    /**
     * The tilde block of `runOverSSH` (cmd/root.go:168-175). `home` is what
     * `user.Current()` yields, None when it fails; `fatal` reports the
     * `log.Fatal` that then ends the run, leaving the path as it was.
     */
    method ExpandKeyPath(home: Option<string>) returns (fatal: bool)
      modifies this`privkeyPath
      ensures fatal <==> Expanded(old(privkeyPath), home).None?
      ensures !fatal ==> privkeyPath == Expanded(old(privkeyPath), home).value
      ensures fatal ==> privkeyPath == old(privkeyPath)
    {
      fatal := false;
      if Contains(privkeyPath, "~/") {
        if home.None? {
          fatal := true;
          return;
        }
        privkeyPath := Join(home.value, DeleteFirst(privkeyPath, '~'));
      }
    }
  }
}
