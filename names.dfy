/**
 * The render-target name resolver: the name is cleaned, split at its last
 * slash, and an empty leaf is replaced by the module "index".
 */
module Names {
  import opened GoPath

  /**
   * The path handed to Lua's `require`. Because cleaning strips every trailing
   * slash except that of the root, the "index" leaf is only ever added to "/".
   */
  function Resolve(name: string): (r: string)
    ensures r == (if Clean(name) == "/" then "/index" else Clean(name))
    ensures r != [] && r[|r| - 1] != '/'
  {
    var cleaned := Clean(name);
    var (dir, entry) := Split(cleaned);
    SplitFileEmpty(cleaned);
    if entry == [] then
      assert dir == "/";
      RootIndex();
      Join(dir, "index")
    else cleaned
  }

  lemma {:induction false} CleanOfIndex(p: string)
    requires p == "index" || p == "/index" || p == "//index"
    ensures Clean(p) == (if p == "index" then "index" else "/index")
  {
    FieldsOfElemThen("index", []);
    assert "index" + [] == "index";
    assert Fields("index") == ["index"];
    assert Fields("/index") == ["index"] by { assert "/index"[1..] == "index"; }
    assert Fields("//index") == ["index"] by { assert "//index"[1..] == "/index"; }
    var rooted := p != "index";
    assert IsRooted(p) == rooted;
    assert Reduce(["index"], rooted) == ["index"] by {
      assert ["index"][..0] == [];
    }
    assert JoinSlash(["index"]) == "index";
  }

  lemma RootIndex()
    ensures Join("/", "index") == "/index"
  {
    assert "/" + "/" + "index" == "//index";
    CleanOfIndex("//index");
  }

  /** Resolving twice gives the same path as resolving once. */
  lemma ResolveIdempotent(name: string)
    ensures Resolve(Resolve(name)) == Resolve(name)
  {
    CleanIdempotent(name);
    if Clean(name) == "/" {
      CleanOfIndex("/index");
    }
  }

  /**
   * A trailing slash on a non-empty name changes nothing: "optional/" resolves
   * like "optional", not like "optional/index".
   */
  lemma ResolveIgnoresTrailingSlash(name: string)
    requires name != []
    ensures Resolve(name + "/") == Resolve(name)
  {
    CleanIgnoresTrailingSlash(name);
  }

  /** "optional/index" resolves to itself. */
  lemma ResolveOptionalIndex()
    ensures Resolve("optional/index") == "optional/index"
  {
    var kept := ["optional", "index"];
    assert JoinSlash(kept) == "optional/index";
    CleanOfNormal(kept);
  }

  lemma CleanOptionalSlash()
    ensures Clean("optional/") == "optional"
  {
    var o := "optional";
    assert o + "/" == "optional/";
    CleanIgnoresTrailingSlash(o);
    assert JoinSlash([o]) == o;
    CleanOfNormal([o]);
  }

  /** "optional/" resolves to "optional", not to "optional/index". */
  lemma ResolveOptional()
    ensures Resolve("optional/") == "optional"
    ensures Resolve("optional/") != Resolve("optional/index")
  {
    CleanOptionalSlash();
    assert "optional" != "/";
    ResolveOptionalIndex();
    assert |"optional"| != |"optional/index"|;
  }

  /** The empty name resolves to "." and the root to "/index". */
  lemma ResolveEmptyAndRoot()
    ensures Resolve("") == "."
    ensures Resolve("/") == "/index"
  {
    assert Fields("/") == [] by { assert "/"[1..] == []; }
    assert Clean("/") == "/";
  }
}
