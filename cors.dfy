/**
 * The CORS origin policy of the authentication API (index.js:13-31): origins are
 * normalised by trimming and dropping one trailing slash, then looked up in a fixed
 * set of development origins plus the configured front-end origin.
 */
module Cors {

  import opened Wrappers
  import opened Text

  /** The slash removal of index.js:13: drop one `/` at the very end, if there is one. */
  function StripTrailingSlash(t: string): (r: string)
    ensures r == t || r + "/" == t
    ensures r == t <==> (t == [] || t[|t| - 1] != '/')
  {
    if |t| > 0 && t[|t| - 1] == '/' then t[..|t| - 1] else t
  }

  /** `normalizeOrigin`: null for a falsy value, otherwise trimmed with one trailing slash removed. */
  function NormalizeOrigin(o: Option<string>): (r: Option<string>)
    ensures r.None? <==> !Truthy(o)
    ensures r.Some? ==>
      var t := Trim(o.value);
      && |r.value| <= |o.value|
      && (r.value == t || r.value + "/" == t)
      && (r.value == t <==> (t == [] || t[|t| - 1] != '/'))
  {
    if Truthy(o) then
      TrimShape(o.value);
      Some(StripTrailingSlash(Trim(o.value)))
    else None
  }

  /** The four development origins that are always allowed. */
  const LocalOrigins: set<string> :=
    {"http://localhost:5173", "http://localhost:5175", "http://127.0.0.1:5173", "http://127.0.0.1:5175"}

  /**
   * `allowedOrigins`: the configured front-end origin (normalised) and the development
   * origins, with falsy entries filtered out. `frontendOrigin` stands for the
   * `FRONTEND_ORIGIN` environment variable, absent when it is unset.
   */
  function AllowedOrigins(frontendOrigin: Option<string>): (r: set<string>)
    ensures LocalOrigins <= r
    ensures "" !in r
    ensures forall x :: x in r ==> x in LocalOrigins || NormalizeOrigin(frontendOrigin) == Some(x)
    ensures NormalizeOrigin(frontendOrigin).Some? && NormalizeOrigin(frontendOrigin).value != "" ==>
              NormalizeOrigin(frontendOrigin).value in r
  {
    var configured := NormalizeOrigin(frontendOrigin);
    if Truthy(configured) then LocalOrigins + {configured.value} else LocalOrigins
  }

  /** What the `origin` callback passes to its continuation: pass, or an error. */
  datatype Verdict = Allow | Block(message: string)

  /** The `origin` callback over a set of allowed origins. */
  function Check(allowed: set<string>, origin: Option<string>): (v: Verdict)
    ensures v.Block? ==> Truthy(origin) && v.message == "CORS bloqueado para: " + origin.value
  {
    if !Truthy(origin) then Allow
    else if NormalizeOrigin(origin).value in allowed then Allow
    else Block("CORS bloqueado para: " + origin.value)
  }

  /**
   * The configured policy allows exactly the requests without an origin and those whose
   * normalised origin is a development origin or the non-empty normalised front-end origin.
   */
  lemma PolicyAllowsIff(frontendOrigin: Option<string>, origin: Option<string>)
    ensures Check(AllowedOrigins(frontendOrigin), origin) == Allow <==>
      || !Truthy(origin)
      || NormalizeOrigin(origin).value in LocalOrigins
      || (NormalizeOrigin(origin) == NormalizeOrigin(frontendOrigin) && NormalizeOrigin(origin).value != "")
  {
  }

  /**
   * An allowed origin still passes when it arrives with surrounding whitespace and
   * with one trailing slash.
   */
  lemma PaddedOriginAllowed(allowed: set<string>, w: string, a: string, b: string, slash: bool)
    requires w in allowed && w != [] && Trimmed(w) && w[|w| - 1] != '/'
    requires AllSpace(a) && AllSpace(b)
    ensures Check(allowed, Some(a + w + (if slash then "/" else "") + b)) == Allow
  {
    var core := w + (if slash then "/" else "");
    assert a + w + (if slash then "/" else "") + b == a + core + b;
    assert core[0] == w[0];
    assert Trimmed(core);
    TrimPadded(a, core, b);
    assert |a + core + b| >= |core| > 0;
    if slash {
      assert core[..|core| - 1] == w;
    }
    assert StripTrailingSlash(core) == w;
    assert NormalizeOrigin(Some(a + core + b)) == Some(w);
  }

  /**
   * Each development origin passes under every front-end configuration, with whitespace
   * around it and with or without one trailing slash.
   */
  lemma DevelopmentOriginsAllowed(frontendOrigin: Option<string>, o: string, a: string, b: string, slash: bool)
    requires o in LocalOrigins && AllSpace(a) && AllSpace(b)
    ensures Check(AllowedOrigins(frontendOrigin), Some(a + o + (if slash then "/" else "") + b)) == Allow
  {
    assert o != [] && Trimmed(o) && o[|o| - 1] != '/';
    PaddedOriginAllowed(AllowedOrigins(frontendOrigin), o, a, b, slash);
  }

  /** The development set is exact: a neighbouring port is blocked when no front-end origin is configured. */
  lemma OtherPortBlocked()
    ensures Check(AllowedOrigins(None), Some("http://localhost:5174")).Block?
  {
    var o := "http://localhost:5174";
    assert TrimStart(o) == o;
    assert TrimEnd(o) == o;
    assert NormalizeOrigin(Some(o)).value == o;
    assert AllowedOrigins(None) == LocalOrigins;
  }

  /** Only one trailing slash is removed: a doubled slash makes a development origin fail. */
  lemma DoubleSlashBlocked()
    ensures Check(AllowedOrigins(None), Some("http://localhost:5173//")).Block?
  {
    var o := "http://localhost:5173//";
    assert TrimStart(o) == o;
    assert TrimEnd(o) == o;
    assert NormalizeOrigin(Some(o)).value == "http://localhost:5173/";
    assert AllowedOrigins(None) == LocalOrigins;
  }

  /** The configured front-end origin is allowed, whether or not it is written with a trailing slash. */
  lemma FrontendOriginAllowed(f: string)
    requires f != [] && Trimmed(f) && f[|f| - 1] != '/'
    ensures Check(AllowedOrigins(Some(f)), Some(f)) == Allow
    ensures Check(AllowedOrigins(Some(f + "/")), Some(f)) == Allow
    ensures Check(AllowedOrigins(Some(f)), Some(f + "/")) == Allow
  {
    assert AllSpace([]);
    assert [] + f + [] == f;
    TrimPadded([], f, []);
    var g := f + "/";
    assert g[0] == f[0];
    assert [] + g + [] == g;
    TrimPadded([], g, []);
    assert g[..|g| - 1] == f;
  }
}
