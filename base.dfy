/** Values shared by every part of the model: bytes, optional values and
    results, the JSON values that pass.json holds, and the two string
    operations the source relies on (os.path.basename and Python's `in`
    on strings). */
module Base {

  newtype byte = x: int | 0 <= x < 256
  type Bytes = seq<byte>

  datatype Option<+T> = None | Some(value: T)

  datatype Result<+T, +E> = Success(value: T) | Failure(error: E)

  /** A JSON document as json.loads produces it (numbers are integers here). */
  datatype Json =
    | JNull
    | JBool(b: bool)
    | JNumber(n: int)
    | JString(s: string)
    | JArray(items: seq<Json>)
    | JObject(fields: map<string, Json>)

  /** `t` is a suffix of `s`. */
  /** A second update of the same key overrides the first. */
  lemma UpdateTwice<K, V>(m: map<K, V>, k: K, a: V, b: V)
    ensures m[k := a][k := b] == m[k := b]
  {
  }

  predicate IsSuffix(t: string, s: string) {
    |t| <= |s| && s[|s| - |t|..] == t
  }

  /** os.path.basename: the part of `path` after its last '/'. */
  function BaseName(path: string): (r: string)
    ensures '/' !in r
    ensures IsSuffix(r, path)
    ensures '/' !in path ==> r == path
    ensures |r| < |path| ==> path[|path| - |r| - 1] == '/'
  {
    if path == [] then []
    else if path[|path| - 1] == '/' then []
    else
      var init, last := path[..|path| - 1], path[|path| - 1];
      var b := BaseName(init);
      assert path == init + [last];
      BaseNameGrows(init, last, b);
      b + [last]
  }

  /** A last character that is not '/' extends the base name of the
      path before it. */
  lemma BaseNameGrows(init: string, last: char, b: string)
    requires last != '/'
    requires '/' !in b && IsSuffix(b, init)
    requires '/' !in init ==> b == init
    requires |b| < |init| ==> init[|init| - |b| - 1] == '/'
    ensures var r, path := b + [last], init + [last];
      && '/' !in r && IsSuffix(r, path)
      && ('/' !in path ==> r == path)
      && (|r| < |path| ==> path[|path| - |r| - 1] == '/')
  {
    var r, path := b + [last], init + [last];
    assert '/' !in r by {
      assert '/' !in [last];
    }
    assert IsSuffix(r, path) by {
      assert path[|path| - |r|..] == init[|init| - |b|..] + [last];
    }
    assert '/' !in path ==> '/' !in init by {
      if '/' !in path {
        forall i | 0 <= i < |init| ensures init[i] != '/' { assert init[i] == path[i]; }
      }
    }
    assert |r| < |path| ==> path[|path| - |r| - 1] == '/' by {
      if |r| < |path| {
        assert path[|path| - |r| - 1] == init[|init| - |b| - 1];
      }
    }
  }

  /** The base name of a path whose last '/' precedes `name` is `name`. */
  lemma BaseNameAfterSlash(dir: string, name: string)
    requires '/' !in name
    ensures BaseName(dir + "/" + name) == name
  {
    var path := dir + "/" + name;
    var r := BaseName(path);
    assert path[|dir|] == '/';
    assert path[|path| - |name|..] == name;
  }

  /** `sub` occurs at the start of `s`. */
  predicate StartsWith(s: string, sub: string) {
    |sub| <= |s| && s[..|sub|] == sub
  }

  /** Python's `sub in s` on strings: `sub` occurs somewhere in `s`. */
  predicate Contains(s: string, sub: string)
    decreases |s|
  {
    StartsWith(s, sub) || (s != [] && Contains(s[1..], sub))
  }

  /** `sub` occurs in `s` at index `i`. */
  predicate OccursAt(s: string, sub: string, i: int) {
    0 <= i <= |s| - |sub| && s[i..i + |sub|] == sub
  }

  /** The recursive definition of Contains agrees with "occurs at some index". */
  lemma {:induction false} ContainsAt(s: string, sub: string)
    ensures Contains(s, sub) <==> exists i :: OccursAt(s, sub, i)
    decreases |s|
  {
    if StartsWith(s, sub) {
      assert OccursAt(s, sub, 0);
    } else if s != [] {
      ContainsAt(s[1..], sub);
      if Contains(s[1..], sub) {
        var i :| OccursAt(s[1..], sub, i);
        assert s[i + 1..i + 1 + |sub|] == s[1..][i..i + |sub|];
        assert OccursAt(s, sub, i + 1);
      } else {
        forall i | 0 < i && OccursAt(s, sub, i) ensures OccursAt(s[1..], sub, i - 1) {
          assert s[i..i + |sub|] == s[1..][i - 1..i - 1 + |sub|];
        }
      }
    }
  }
}
