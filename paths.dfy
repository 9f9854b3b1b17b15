/**
 * java.io.File path arithmetic, as the conversion code uses it, over normalised Unix paths
 * ('/' separator, no repeated or trailing '/'), plus the base-name rule both output-name
 * builders share.
 */
module Paths {
  import opened Wrappers
  import opened Text
  import Probe

  const SEPARATOR: char := '/'

  predicate IsAbsolute(p: string)
  {
    |p| > 0 && p[0] == SEPARATOR
  }

  /**
   * `File.getParent()`: the text before the last separator; "/" for a child of the root;
   * None (null) for a bare name and for the root itself.
   */
  function Parent(p: string): (r: Option<string>)
    ensures r.Some? ==> |r.value| < |p| && StartsWith(p, r.value)
    ensures r.None? <==> SEPARATOR !in p || p == "/"
  {
    var i := LastIndexOf(p, SEPARATOR);
    if i < 0 then None
    else if i == 0 then (if |p| > 1 then Some("/") else None)
    else Some(p[..i])
  }

  /** `new File(dir, name)`: `name` under `dir`; a child of the root or of "" sits under "/". */
  function Child(dir: string, name: string): (r: string)
    ensures |r| == |dir| + 1 + |name| || ((dir == "" || dir == "/") && r == "/" + name)
  {
    if dir == "" || dir == "/" then "/" + name else dir + [SEPARATOR] + name
  }

  /** `File.getAbsolutePath()`: an absolute path as it is, a relative one resolved against `cwd`. */
  function Absolute(p: string, cwd: string): (r: string)
    ensures IsAbsolute(p) ==> r == p
    ensures !IsAbsolute(p) && p != "" ==> r == Child(cwd, p)
  {
    if IsAbsolute(p) then p else if p == "" then cwd else Child(cwd, p)
  }

  /**
   * The file name without its last extension: everything before the last '.', when that
   * dot is not the first character; otherwise the whole name.
   */
  function StripExtension(name: string): (b: string)
    ensures LastIndexOf(name, '.') <= 0 ==> b == name
    ensures LastIndexOf(name, '.') > 0 ==>
              0 < |b| < |name| && name[..|b|] == b && name[|b|] == '.' && '.' !in name[|b| + 1..]
  {
    var dot := LastIndexOf(name, '.');
    if dot > 0 then name[..dot] else name
  }

  /** The base name and the format the probe reads off a name put the name back together. */
  lemma StripThenExtension(name: string)
    ensures Probe.Extension(name).Some? ==>
              name == StripExtension(name) + "." + Probe.Extension(name).value
    ensures Probe.Extension(name).None? ==> StripExtension(name) == name
  {
    var dot := LastIndexOf(name, '.');
    if dot > 0 {
      assert name == name[..dot] + "." + name[dot + 1..];
    }
  }

  /** A non-empty stem, a dot and a dot-free format: the format is the extension, the stem the base. */
  lemma StemThenFormat(stem: string, format: string)
    requires stem != [] && '.' !in format
    ensures Probe.Extension(stem + "." + format) == Some(format)
    ensures StripExtension(stem + "." + format) == stem
  {
    var r := stem + "." + format;
    assert r[|stem|] == '.';
    forall j | |stem| < j < |r| ensures r[j] != '.' {
      assert r[j] == format[j - |stem| - 1];
    }
    assert LastIndexOf(r, '.') == |stem|;
    assert r[|stem| + 1..] == format;
    assert r[..|stem|] == stem;
  }

  /** A parent is always a proper prefix that ends just before a separator (or is the root). */
  lemma ParentIsDirectory(p: string)
    requires Parent(p).Some?
    ensures var d := Parent(p).value;
            (d == "/" && p[0] == SEPARATOR && SEPARATOR !in p[1..]) ||
            (p[|d|] == SEPARATOR && SEPARATOR !in p[|d| + 1..])
  {
    var i := LastIndexOf(p, SEPARATOR);
    if i == 0 {
      assert forall j :: 0 < j < |p| ==> p[j] != SEPARATOR;
      var rest := p[1..];
      forall k | 0 <= k < |rest| ensures rest[k] != SEPARATOR {
        assert rest[k] == p[k + 1];
      }
    } else {
      var rest := p[i + 1..];
      forall k | 0 <= k < |rest| ensures rest[k] != SEPARATOR {
        assert rest[k] == p[i + 1 + k];
      }
    }
  }

  /** The child's parent is the directory it was put under. */
  lemma ParentOfChild(dir: string, name: string)
    requires dir != "" && name != [] && SEPARATOR !in name
    requires dir == "/" || !(dir[|dir| - 1] == SEPARATOR)
    ensures Parent(Child(dir, name)) == Some(dir)
  {
    var c := Child(dir, name);
    var i := |c| - |name| - 1;
    assert c[i] == SEPARATOR;
    forall j | i < j < |c| ensures c[j] != SEPARATOR {
      assert c[j] == name[j - i - 1];
    }
    assert LastIndexOf(c, SEPARATOR) == i;
    if dir == "/" {
      assert i == 0;
    } else {
      assert c[..i] == dir;
    }
  }

}
