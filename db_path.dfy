/** Database names and the files that hold them: every database is one
    `<name>.db` file in the storage directory. */
module DbPath {
  import opened Text

  const Extension := ".db"

  /** The file name for a database name: `.db` is appended unless the
      name already ends with it. */
  function DbFileName(name: string): (file: string)
    ensures EndsWith(file, Extension)
    ensures file == name <==> EndsWith(name, Extension)
    ensures file == name || file == name + Extension
  {
    if EndsWith(name, Extension) then name else name + Extension
  }

  /** `DB_DIR / file` for a plain file name. */
  function PathOf(root: string, name: string): (path: string)
    ensures EndsWith(path, "/" + DbFileName(name))
  {
    var p := root + "/" + DbFileName(name);
    assert p[|p| - |"/" + DbFileName(name)|..] == "/" + DbFileName(name);
    p
  }

  /** Normalising a second time changes nothing. */
  lemma DbFileNameIdempotent(name: string)
    ensures DbFileName(DbFileName(name)) == DbFileName(name)
  {
  }

  /** `x` and `x.db` name the same database file, while a name that
      already ends in `.db` and the same name with a second `.db` do not. */
  lemma {:induction false} DbFileNameAlias(name: string)
    ensures DbFileName(name + Extension) == name + Extension
    ensures !EndsWith(name, Extension) ==> DbFileName(name) == DbFileName(name + Extension)
    ensures EndsWith(name, Extension) ==> DbFileName(name) != DbFileName(name + Extension)
  {
    var n := name + Extension;
    assert n[|n| - |Extension|..] == Extension;
  }

  /** Distinct names that both avoid the suffix map to distinct files. */
  lemma {:induction false} DbFileNameInjective(a: string, b: string)
    requires !EndsWith(a, Extension) && !EndsWith(b, Extension)
    requires DbFileName(a) == DbFileName(b)
    ensures a == b
  {
    assert a == (a + Extension)[..|a|];
    assert b == (b + Extension)[..|b|];
  }
}
