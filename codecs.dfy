/**
 * Codec lookup (codecs.go:20-37): the registry maps a lower-cased file
 * extension to a codec, and FindCodec looks up the extension of a path.
 * Encoding and decoding themselves are library code and are not modelled.
 */
module Codecs {
  import opened Results

  datatype Codec = TOML | JSON

  datatype CodecError = UnsupportedFormat(ext: string)   // "unsupported file format %q"

  /** The registry as init fills it (codecs.go:23-27); nothing writes it afterwards. */
  const Registry: map<string, Codec> := map[".toml" := TOML, ".json" := JSON]

  /** Position `i` lies in a directory name: a `/` comes after it. */
  predicate SlashFollows(path: string, i: nat)
    requires i < |path|
  {
    '/' in path[i + 1..]
  }

  /**
   * filepath.Ext on a slash-separated path: the suffix from the last `.` of
   * the final path element, or "" when that element has no `.`.
   */
  function Ext(path: string): (e: string)
    ensures |e| <= |path| && e == path[|path| - |e|..]
    ensures e != [] ==> e[0] == '.' && '/' !in e && '.' !in e[1..]
    ensures e == [] <==> forall i | 0 <= i < |path| && path[i] == '.' :: SlashFollows(path, i)
  {
    ExtBeforeShape(path, |path|);
    ExtBeforeEmpty(path, |path|);
    ExtBefore(path, |path|)
  }

  /** The loop of filepath.Ext, walking back from position `n`. */
  function ExtBefore(path: string, n: nat): string
    requires n <= |path|
    requires '/' !in path[n..] && '.' !in path[n..]
  {
    if n == 0 then []
    else if path[n - 1] == '/' then []
    else if path[n - 1] == '.' then path[n - 1..]
    else
      assert path[n - 1..] == [path[n - 1]] + path[n..];
      ExtBefore(path, n - 1)
  }

  /** What the walk returns is a suffix: empty, or a `.` followed by neither `/` nor `.`. */
  lemma {:induction false} ExtBeforeShape(path: string, n: nat)
    requires n <= |path|
    requires '/' !in path[n..] && '.' !in path[n..]
    ensures |ExtBefore(path, n)| <= |path| && ExtBefore(path, n) == path[|path| - |ExtBefore(path, n)|..]
    ensures ExtBefore(path, n) != [] ==>
      ExtBefore(path, n)[0] == '.' && '/' !in ExtBefore(path, n) && '.' !in ExtBefore(path, n)[1..]
    decreases n
  {
    if n > 0 && path[n - 1] != '/' {
      if path[n - 1] == '.' {
        assert path[n - 1..][1..] == path[n..];
      } else {
        assert path[n - 1..] == [path[n - 1]] + path[n..];
        ExtBeforeShape(path, n - 1);
      }
    }
  }

  /** The walk finds nothing exactly when every `.` before `n` lies in a directory name. */
  lemma {:induction false} ExtBeforeEmpty(path: string, n: nat)
    requires n <= |path|
    requires '/' !in path[n..] && '.' !in path[n..]
    ensures ExtBefore(path, n) == [] <==> forall i | 0 <= i < n && path[i] == '.' :: SlashFollows(path, i)
    decreases n
  {
    if n > 0 {
      if path[n - 1] == '/' {
        SlashAfter(path, n - 1);
      } else if path[n - 1] != '.' {
        assert path[n - 1..] == [path[n - 1]] + path[n..];
        ExtBeforeEmpty(path, n - 1);
      }
    }
  }

  lemma SlashAfter(path: string, k: nat)
    requires k < |path| && path[k] == '/'
    ensures forall i | 0 <= i < k :: SlashFollows(path, i)
  {
    forall i | 0 <= i < k ensures SlashFollows(path, i) {
      assert path[i + 1..][k - i - 1] == '/';
    }
  }

  /** The extension starts at the last `.`, when no `/` follows it. */
  lemma {:induction false} ExtAt(path: string, i: nat)
    requires i < |path| && path[i] == '.' && '/' !in path[i + 1..] && '.' !in path[i + 1..]
    ensures Ext(path) == path[i..]
  {
    ExtBeforeAt(path, |path|, i);
  }

  lemma {:induction false} ExtBeforeAt(path: string, n: nat, i: nat)
    requires i < n <= |path| && path[i] == '.' && '/' !in path[i + 1..] && '.' !in path[i + 1..]
    ensures '/' !in path[n..] && '.' !in path[n..]
    ensures ExtBefore(path, n) == path[i..]
    decreases n
  {
    assert path[n..] == path[i + 1..][n - i - 1..];
    if n > i + 1 {
      assert path[n - 1] == path[i + 1..][n - i - 2];
      ExtBeforeAt(path, n - 1, i);
      assert path[n - 1..] == [path[n - 1]] + path[n..];
    }
  }

  /** Lower-casing of one character; only ASCII letters change. */
  function LowerChar(c: char): (d: char)
    ensures 'A' <= c <= 'Z' ==> d as int == c as int + 32
    ensures !('A' <= c <= 'Z') ==> d == c
  {
    if 'A' <= c <= 'Z' then (c as int + 32) as char else c
  }

  /** strings.ToLower, for ASCII letters. */
  function Lower(s: string): (r: string)
    ensures |r| == |s| && forall i | 0 <= i < |s| :: r[i] == LowerChar(s[i])
  {
    seq(|s|, i requires 0 <= i < |s| => LowerChar(s[i]))
  }

  /** FindCodec (codecs.go:30-37). */
  function FindCodec(path: string): (r: Result<Codec, CodecError>)
    ensures r == Ok(TOML) <==> Lower(Ext(path)) == ".toml"
    ensures r == Ok(JSON) <==> Lower(Ext(path)) == ".json"
    ensures r.Err? <==> Lower(Ext(path)) !in Registry
    ensures r.Err? ==> r.error == UnsupportedFormat(Lower(Ext(path)))
  {
    var ext := Lower(Ext(path));
    if ext in Registry then Ok(Registry[ext]) else Err(UnsupportedFormat(ext))
  }

  /** The lookup ignores the case of the extension. */
  lemma FindCodecIgnoresCase(p: string, q: string)
    requires Lower(Ext(p)) == Lower(Ext(q))
    ensures FindCodec(p) == FindCodec(q)
  {
  }

  /** Lower-casing is idempotent, so an already lower-cased path finds the same codec. */
  lemma LowerIdempotent(s: string)
    ensures Lower(Lower(s)) == Lower(s)
  {
  }

  /** A `.` in a directory name is not an extension. */
  lemma {:induction false} DirectoryDotIgnored(dir: string, name: string)
    requires '/' !in name
    ensures Ext(dir + "/" + name) == Ext(name)
  {
    var p := dir + "/" + name;
    var k := |dir| + 1;
    assert p[k..] == name;
    ExtSuffix(p, name, k, |name|);
  }

  lemma {:induction false} ExtSuffix(p: string, name: string, k: nat, n: nat)
    requires k >= 1 && k + |name| == |p| && p[k..] == name && p[k - 1] == '/'
    requires n <= |name| && '/' !in name[n..] && '.' !in name[n..]
    ensures ExtBefore(p, k + n) == ExtBefore(name, n)
    decreases n
  {
    assert p[k + n..] == name[n..];
    if n == 0 {
      assert p[k - 1] == '/';
      assert ExtBefore(p, k) == [];
    } else {
      assert p[k + n - 1] == name[n - 1];
      assert p[k + n - 1..] == name[n - 1..];
      if name[n - 1] == '/' {
        assert ExtBefore(p, k + n) == [] == ExtBefore(name, n);
      } else if name[n - 1] == '.' {
        assert ExtBefore(p, k + n) == p[k + n - 1..];
        assert ExtBefore(name, n) == name[n - 1..];
      } else {
        assert name[n - 1..] == [name[n - 1]] + name[n..];
        ExtSuffix(p, name, k, n - 1);
        assert ExtBefore(p, k + n) == ExtBefore(p, k + n - 1);
        assert ExtBefore(name, n) == ExtBefore(name, n - 1);
      }
    }
  }

  /** A path without an extension is not a supported format. */
  lemma NoExtensionUnsupported(path: string)
    requires forall i | 0 <= i < |path| && path[i] == '.' :: SlashFollows(path, i)
    ensures FindCodec(path) == Err(UnsupportedFormat(""))
  {
  }

  /** Examples: extensions in any case, and a dotted directory. */
  lemma TomlExample()
    ensures FindCodec("out/crazy/010.toml") == Ok(TOML)
  {
    var p := "out/crazy/010.toml";
    assert p[14..] == "toml";
    ExtAt(p, 13);
    assert p[13..] == ".toml";
  }

  lemma UpperCaseExample()
    ensures FindCodec("Config.JSON") == Ok(JSON)
  {
    ExtAt("Config.JSON", 6);
    assert Lower(".JSON") == ".json";
  }

  lemma DottedDirectoryExample()
    ensures FindCodec("in.d/config") == Err(UnsupportedFormat(""))
  {
    assert Ext("in.d/config") == "";
  }

  lemma OtherFormatExample()
    ensures FindCodec("config.yaml") == Err(UnsupportedFormat(".yaml"))
  {
    ExtAt("config.yaml", 6);
    assert Lower(".yaml") == ".yaml";
  }
}
