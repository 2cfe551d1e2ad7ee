/**
 * The PHP built-ins the core relies on, as pure functions over strings:
 * `empty` and `??` on a nullable string, `htmlspecialchars` with its default
 * flags, `dirname` and `basename` on Unix paths.
 */
module Php {
  import opened Wrappers

  /** PHP's `$v ?? ''` for a `?string`: a null string reads as one that is set but blank. */
  function OrEmpty(v: Option<string>): (r: string)
    ensures v.Some? ==> r == v.value
    ensures r == "" <==> v == None || v == Some("")
  {
    if v.Some? then v.value else ""
  }

  /** PHP's `empty($v)` for a `?string`: null, "" and "0" are empty. */
  predicate IsEmpty(v: Option<string>)
    ensures IsEmpty(v) <==> OrEmpty(v) == "" || OrEmpty(v) == "0"
  {
    v == None || v == Some("") || v == Some("0")
  }

  // ---------------------------------------------------------------------------
  // htmlspecialchars with the default flags of PHP 8.1 and later
  // (ENT_QUOTES | ENT_SUBSTITUTE | ENT_HTML401, double_encode on)

  /** The characters htmlspecialchars rewrites. */
  predicate IsSpecial(c: char) {
    c == '&' || c == '<' || c == '>' || c == '"' || c == '\''
  }

  /** The markup characters that never survive escaping unrewritten. */
  predicate IsMarkup(c: char) {
    c == '<' || c == '>' || c == '"' || c == '\''
  }

  /** Text with no raw markup character in it. */
  predicate NoMarkup(s: string) {
    forall i :: 0 <= i < |s| ==> !IsMarkup(s[i])
  }

  function EscapeChar(c: char): string {
    if c == '&' then "&amp;"
    else if c == '<' then "&lt;"
    else if c == '>' then "&gt;"
    else if c == '"' then "&quot;"
    else if c == '\'' then "&#039;"
    else [c]
  }

  /** htmlspecialchars($s): every special character becomes its entity reference. */
  function HtmlSpecialChars(s: string): (r: string)
    ensures |r| >= |s|
    ensures NoMarkup(r)
    ensures (forall i :: 0 <= i < |s| ==> !IsSpecial(s[i])) ==> r == s
  {
    if s == [] then []
    else
      var rest := HtmlSpecialChars(s[1..]);
      assert NoMarkup(EscapeChar(s[0]));
      assert (forall i :: 0 <= i < |s| ==> !IsSpecial(s[i])) ==> (forall i :: 0 <= i < |s[1..]| ==> !IsSpecial(s[1..][i]));
      EscapeChar(s[0]) + rest
  }

  predicate HasPrefix(s: string, p: string) {
    |p| <= |s| && s[..|p|] == p
  }

  /** Reads the five entity references htmlspecialchars writes back into characters. */
  function Unescape(s: string): string {
    if s == [] then []
    else if HasPrefix(s, "&amp;") then "&" + Unescape(s[5..])
    else if HasPrefix(s, "&lt;") then "<" + Unescape(s[4..])
    else if HasPrefix(s, "&gt;") then ">" + Unescape(s[4..])
    else if HasPrefix(s, "&quot;") then "\"" + Unescape(s[6..])
    else if HasPrefix(s, "&#039;") then "'" + Unescape(s[6..])
    else [s[0]] + Unescape(s[1..])
  }

  lemma UnescapeAmp(t: string)
    ensures Unescape("&amp;" + t) == "&" + Unescape(t)
  {
    var e := "&amp;" + t;
    assert HasPrefix(e, "&amp;") && e[5..] == t;
  }

  lemma UnescapeLt(t: string)
    ensures Unescape("&lt;" + t) == "<" + Unescape(t)
  {
    var e := "&lt;" + t;
    assert e[1] == 'l' && !HasPrefix(e, "&amp;");
    assert HasPrefix(e, "&lt;") && e[4..] == t;
  }

  lemma UnescapeGt(t: string)
    ensures Unescape("&gt;" + t) == ">" + Unescape(t)
  {
    var e := "&gt;" + t;
    assert e[1] == 'g' && !HasPrefix(e, "&amp;") && !HasPrefix(e, "&lt;");
    assert HasPrefix(e, "&gt;") && e[4..] == t;
  }

  lemma UnescapeQuot(t: string)
    ensures Unescape("&quot;" + t) == "\"" + Unescape(t)
  {
    var e := "&quot;" + t;
    assert e[1] == 'q' && !HasPrefix(e, "&amp;") && !HasPrefix(e, "&lt;") && !HasPrefix(e, "&gt;");
    assert HasPrefix(e, "&quot;") && e[6..] == t;
  }

  lemma UnescapeApos(t: string)
    ensures Unescape("&#039;" + t) == "'" + Unescape(t)
  {
    var e := "&#039;" + t;
    assert e[1] == '#' && !HasPrefix(e, "&amp;") && !HasPrefix(e, "&lt;") && !HasPrefix(e, "&gt;");
    assert !HasPrefix(e, "&quot;");
    assert HasPrefix(e, "&#039;") && e[6..] == t;
  }

  lemma UnescapePlain(c: char, t: string)
    requires !IsSpecial(c)
    ensures Unescape([c] + t) == [c] + Unescape(t)
  {
    var e := [c] + t;
    assert e[0] == c && e[1..] == t;
    NoPrefixOnFirst(e, "&amp;");
    NoPrefixOnFirst(e, "&lt;");
    NoPrefixOnFirst(e, "&gt;");
    NoPrefixOnFirst(e, "&quot;");
    NoPrefixOnFirst(e, "&#039;");
  }

  /** A string does not start with p when their first characters differ. */
  lemma NoPrefixOnFirst(s: string, p: string)
    requires s != [] && p != [] && s[0] != p[0]
    ensures !HasPrefix(s, p)
  {
    if |p| <= |s| {
      assert s[..|p|][0] != p[0];
    }
  }

  lemma UnescapeAfterEscapeChar(c: char, t: string)
    ensures Unescape(EscapeChar(c) + t) == [c] + Unescape(t)
  {
    if c == '&' {
      UnescapeAmp(t);
    } else if c == '<' {
      UnescapeLt(t);
    } else if c == '>' {
      UnescapeGt(t);
    } else if c == '"' {
      UnescapeQuot(t);
    } else if c == '\'' {
      UnescapeApos(t);
    } else {
      UnescapePlain(c, t);
    }
  }

  /** Escaping loses nothing: the entity references read back to the original text. */
  lemma {:induction false} UnescapeEscape(s: string)
    ensures Unescape(HtmlSpecialChars(s)) == s
  {
    if s != [] {
      UnescapeAfterEscapeChar(s[0], HtmlSpecialChars(s[1..]));
      UnescapeEscape(s[1..]);
      assert s == [s[0]] + s[1..];
    }
  }

  /** Escaping is injective: two texts that escape alike are the same text. */
  lemma EscapeInjective(s: string, t: string)
    requires HtmlSpecialChars(s) == HtmlSpecialChars(t)
    ensures s == t
  {
    UnescapeEscape(s);
    UnescapeEscape(t);
  }

  // ---------------------------------------------------------------------------
  // dirname and basename on '/'-separated paths

  /** s without its trailing run of '/' characters. */
  function TrimTrailingSlashes(s: string): (r: string)
    ensures r <= s
    ensures r == [] || r[|r| - 1] != '/'
    ensures forall i :: |r| <= i < |s| ==> s[i] == '/'
  {
    if s != [] && s[|s| - 1] == '/' then TrimTrailingSlashes(s[..|s| - 1]) else s
  }

  /** s without its trailing run of non-'/' characters (its last path component). */
  function TrimTrailingName(s: string): (r: string)
    ensures r <= s
    ensures r == [] || r[|r| - 1] == '/'
    ensures forall i :: |r| <= i < |s| ==> s[i] != '/'
  {
    if s != [] && s[|s| - 1] != '/' then TrimTrailingName(s[..|s| - 1]) else s
  }

  /**
   * PHP's dirname($path): drop trailing slashes, the last component, then
   * the slashes before it. The result is "." for a bare name, "/" for the
   * root, and otherwise a proper prefix of the path that does not end in a
   * slash.
   */
  function DirName(path: string): (r: string)
    ensures r == [] <==> path == []
    ensures path != [] && '/' !in path ==> r == "."
    ensures r == [] || r == "." || r == "/" || (r < path && r[|r| - 1] != '/')
  {
    if path == [] then []
    else
      var a := TrimTrailingSlashes(path);
      if a == [] then "/"
      else
        var b := TrimTrailingName(a);
        if b == [] then "."
        else
          var c := TrimTrailingSlashes(b);
          if c == [] then "/"
          else
            assert b[|b| - 1] != a[|a| - 1];
            assert c == path[..|c|] by {
              assert c == b[..|c|] && b == a[..|b|] && a == path[..|a|];
            }
            c
  }

  /** PHP's basename($path): the last component, trailing slashes ignored. */
  function BaseName(path: string): (r: string)
    ensures '/' !in r
  {
    var a := TrimTrailingSlashes(path);
    var b := TrimTrailingName(a);
    assert forall i :: 0 <= i < |a[|b|..]| ==> a[|b|..][i] == a[|b| + i];
    a[|b|..]
  }

  lemma TrimNameOfJoin(dir: string, name: string)
    requires '/' !in name
    ensures TrimTrailingName(dir + "/" + name) == dir + "/"
  {
    var p := dir + "/" + name;
    var r := TrimTrailingName(p);
    assert p[|dir|] == '/';
    assert |r| >= |dir| + 1;
    assert r != [] && p[|r| - 1] == '/';
    assert r == p[..|dir| + 1];
  }

  /** The directory of `dir/name` is `dir`, when name is one component and dir has no trailing slash. */
  lemma DirNameOfJoin(dir: string, name: string)
    requires dir != [] && dir[|dir| - 1] != '/'
    requires name != [] && '/' !in name
    ensures DirName(dir + "/" + name) == dir
  {
    var p := dir + "/" + name;
    assert p[|p| - 1] == name[|name| - 1];
    assert TrimTrailingSlashes(p) == p;
    TrimNameOfJoin(dir, name);
    assert (dir + "/")[..|dir + "/"| - 1] == dir;
    assert TrimTrailingSlashes(dir + "/") == TrimTrailingSlashes(dir);
    assert TrimTrailingSlashes(dir) == dir;
  }

  /** The basename of `dir/name` is `name`, when name is one component. */
  lemma BaseNameOfJoin(dir: string, name: string)
    requires name != [] && '/' !in name
    ensures BaseName(dir + "/" + name) == name
  {
    var p := dir + "/" + name;
    assert p[|p| - 1] == name[|name| - 1];
    assert TrimTrailingSlashes(p) == p;
    TrimNameOfJoin(dir, name);
    assert p[|dir + "/"|..] == name;
  }
}
