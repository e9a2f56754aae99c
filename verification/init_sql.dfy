/** `generate_init_sql.py`: substitute "${KEY}" placeholders of the SQL
    template with environment values, one key after another, with Python's
    `str.replace`. */
module InitSql {

  /** `p` occurs in `s` starting at position `i`. */
  predicate OccursAt(s: string, p: string, i: int)
  {
    0 <= i && i + |p| <= |s| && s[i..i + |p|] == p
  }

  /** `p` occurs in `s` at some position. */
  ghost predicate Occurs(s: string, p: string)
  {
    exists i :: OccursAt(s, p, i)
  }

  /** Python's `s.replace(p, v)` for a non-empty `p`: scan left to right,
      replace each occurrence and continue after it, never rescanning `v`. */
  function Replace(s: string, p: string, v: string): (r: string)
    requires |p| > 0
    // each separator `str.split` finds is traded for `v`, and nothing else changes length
    ensures |r| == |s| + (|Split(s, p)| - 1) * (|v| - |p|)
    decreases |s|
  {
    if |s| < |p| then s
    else if s[..|p|] == p then
      SplitCount(s, p);
      OneMore(|Split(s[|p|..], p)| - 1, |v| - |p|);
      v + Replace(s[|p|..], p, v)
    else
      SplitCount(s, p);
      [s[0]] + Replace(s[1..], p, v)
  }

  /** A separator at the front adds a piece; any other first character
      joins the first piece. */
  lemma SplitCount(s: string, p: string)
    requires |p| > 0 && |s| >= |p|
    ensures s[..|p|] == p ==> |Split(s, p)| == 1 + |Split(s[|p|..], p)|
    ensures s[..|p|] != p ==> |Split(s, p)| == |Split(s[1..], p)|
  {
  }

  lemma OneMore(n: int, d: int)
    ensures (n + 1) * d == n * d + d
  {
  }

  /** `sep.join(pieces)`. */
  function Join(pieces: seq<string>, sep: string): string
    requires |pieces| > 0
  {
    if |pieces| == 1 then pieces[0] else pieces[0] + sep + Join(pieces[1..], sep)
  }

  lemma JoinPrefix(pieces: seq<string>, sep: string)
    requires |pieces| > 0
    ensures |pieces[0]| <= |Join(pieces, sep)| && Join(pieces, sep)[..|pieces[0]|] == pieces[0]
    ensures |pieces| > 1 ==> Join(pieces, sep) == pieces[0] + sep + Join(pieces[1..], sep)
  {
  }

  lemma JoinConsHead(c: char, pieces: seq<string>, sep: string)
    requires |pieces| > 0
    ensures Join([[c] + pieces[0]] + pieces[1..], sep) == [c] + Join(pieces, sep)
  {
  }

  /** An occurrence after the first character of `[c] + t` is one in `t`. */
  lemma ConsOccurrence(c: char, t: string, p: string, i: int)
    requires i > 0
    ensures OccursAt([c] + t, p, i) <==> OccursAt(t, p, i - 1)
  {
  }

  /** An occurrence at the start of a prefix of `s` is one at the start of `s`. */
  lemma PrefixOccurrence(x: string, s: string, p: string)
    requires |x| <= |s| && s[..|x|] == x
    ensures OccursAt(x, p, 0) ==> |p| <= |s| && s[..|p|] == p
  {
  }

  /** `[c] + t` has no occurrence of `p` when `t` has none and it is a prefix
      of a string that does not start with `p`. */
  lemma ConsFree(c: char, t: string, s: string, p: string)
    requires !Occurs(t, p)
    requires |[c] + t| <= |s| && s[..|[c] + t|] == [c] + t
    requires !(|p| <= |s| && s[..|p|] == p)
    ensures !Occurs([c] + t, p)
  {
    forall i ensures !OccursAt([c] + t, p, i) {
      if i == 0 {
        PrefixOccurrence([c] + t, s, p);
      } else if i > 0 {
        ConsOccurrence(c, t, p, i);
      }
    }
  }

  /** Python's `s.split(p)`: the text between the occurrences `Replace`
      replaces. Joined back with `p` it gives `s`; no occurrence of `p`
      starts inside a piece (not even one running into the separator that
      follows it), so the separators are the leftmost non-overlapping ones. */
  function Split(s: string, p: string): (pieces: seq<string>)
    requires |p| > 0
    ensures |pieces| > 0
    ensures Join(pieces, p) == s
    ensures forall i :: 0 <= i < |pieces| - 1 ==> !Occurs(pieces[i] + p[..|p| - 1], p)
    ensures forall i :: 0 <= i < |pieces| ==> !Occurs(pieces[i], p)
    decreases |s|
  {
    if |s| < |p| then
      [s]
    else if s[..|p|] == p then
      var rest := Split(s[|p|..], p);
      var short := p[..|p| - 1];
      assert "" + short == short;
      assert !Occurs(short, p) by {
        forall i ensures !OccursAt(short, p, i) { }
      }
      assert !Occurs("", p) by {
        forall i ensures !OccursAt("", p, i) { }
      }
      var pieces := [""] + rest;
      assert pieces[1..] == rest;
      pieces
    else
      var rest := Split(s[1..], p);
      var pieces := [[s[0]] + rest[0]] + rest[1..];
      JoinConsHead(s[0], rest, p);
      assert s == [s[0]] + s[1..];
      HeadPieceFree(s, p, rest);
      assert forall i :: 1 <= i < |pieces| ==> pieces[i] == rest[i];
      pieces
  }

  lemma HeadPieceFree(s: string, p: string, rest: seq<string>)
    requires |p| > 0 && |s| >= |p| && s[..|p|] != p
    requires |rest| > 0 && Join(rest, p) == s[1..]
    requires |rest| > 1 ==> !Occurs(rest[0] + p[..|p| - 1], p)
    requires !Occurs(rest[0], p)
    ensures |rest| > 1 ==> !Occurs([s[0]] + rest[0] + p[..|p| - 1], p)
    ensures !Occurs([s[0]] + rest[0], p)
  {
    JoinPrefix(rest, p);
    var x := [s[0]] + rest[0];
    assert s[..|x|] == x by {
      assert s == [s[0]] + s[1..];
    }
    ConsFree(s[0], rest[0], s, p);
    if |rest| > 1 {
      HeadPieceFreeBeforeSeparator(s, p, rest);
    }
  }

  lemma HeadPieceFreeBeforeSeparator(s: string, p: string, rest: seq<string>)
    requires |p| > 0 && |s| >= |p| && s[..|p|] != p
    requires |rest| > 1 && Join(rest, p) == s[1..]
    requires !Occurs(rest[0] + p[..|p| - 1], p)
    ensures !Occurs([s[0]] + rest[0] + p[..|p| - 1], p)
  {
    JoinPrefix(rest, p);
    var t := rest[0] + p[..|p| - 1];
    var tail := Join(rest[1..], p);
    assert s[1..] == rest[0] + p + tail;
    assert s[1..][..|t|] == t;
    assert s == [s[0]] + s[1..];
    assert s[..|[s[0]] + t|] == [s[0]] + t;
    assert [s[0]] + rest[0] + p[..|p| - 1] == [s[0]] + t;
    ConsFree(s[0], t, s, p);
  }

  /** `s.replace(p, v) == v.join(s.split(p))`: the result is the pieces of
      `s` between the leftmost non-overlapping occurrences of `p`, with `v`
      inserted verbatim where each occurrence was. */
  lemma {:induction false} ReplaceIsJoinOfSplit(s: string, p: string, v: string)
    requires |p| > 0
    ensures Replace(s, p, v) == Join(Split(s, p), v)
    decreases |s|
  {
    if |s| < |p| {
    } else if s[..|p|] == p {
      ReplaceIsJoinOfSplit(s[|p|..], p, v);
      var pieces := [""] + Split(s[|p|..], p);
      assert pieces[1..] == Split(s[|p|..], p);
      assert Join(pieces, v) == "" + v + Join(pieces[1..], v);
    } else {
      ReplaceIsJoinOfSplit(s[1..], p, v);
      JoinConsHead(s[0], Split(s[1..], p), v);
    }
  }

  /** A string without the placeholder comes back unchanged. */
  lemma {:induction false} ReplaceAbsent(s: string, p: string, v: string)
    requires |p| > 0 && !Occurs(s, p)
    ensures Replace(s, p, v) == s
    decreases |s|
  {
    if |s| >= |p| {
      assert !OccursAt(s, p, 0);
      assert s[..|p|] != p;
      assert s == [s[0]] + s[1..];
      forall i ensures !OccursAt(s[1..], p, i) {
        if i >= 0 {
          ConsOccurrence(s[0], s[1..], p, i + 1);
        }
      }
      ReplaceAbsent(s[1..], p, v);
    }
  }

  /** Replacing the placeholder by itself changes nothing. */
  lemma {:induction false} ReplaceBySelf(s: string, p: string)
    requires |p| > 0
    ensures Replace(s, p, p) == s
    decreases |s|
  {
    if |s| >= |p| {
      if s[..|p|] == p {
        ReplaceBySelf(s[|p|..], p);
        assert s == s[..|p|] + s[|p|..];
      } else {
        ReplaceBySelf(s[1..], p);
        assert s == [s[0]] + s[1..];
      }
    }
  }

  /** The keys, in the order the loop substitutes them. */
  const KEYS: seq<string> := ["MYSQL_USER", "MYSQL_HOST", "MYSQL_PASSWORD", "MYSQL_DB"]

  /** f"${{{key}}}" */
  function Placeholder(key: string): (p: string)
    ensures |p| > 0
  {
    "${" + key + "}"
  }

  /** `os.getenv(key)` is truthy: set and non-empty. */
  predicate IsSet(env: map<string, string>, key: string)
  {
    key in env && env[key] != ""
  }

  /** The file written, or the ValueError that stops the script before writing. */
  datatype Generated = Written(sql: string) | MissingVariable(key: string)

  /** Substitutes `keys` in order, each into the text the previous ones left. */
  function SubstituteAll(template: string, keys: seq<string>, env: map<string, string>): (r: Generated)
    // the file is produced exactly when every key is set
    ensures r.Written? <==> forall k :: k in keys ==> IsSet(env, k)
    // a failure names one of the keys, and one that is unset
    ensures r.MissingVariable? ==> r.key in keys && !IsSet(env, r.key)
    decreases |keys|
  {
    if keys == [] then Written(template)
    else if !IsSet(env, keys[0]) then MissingVariable(keys[0])
    else
      assert forall k :: k in keys <==> k == keys[0] || k in keys[1..];
      SubstituteAll(Replace(template, Placeholder(keys[0]), env[keys[0]]), keys[1..], env)
  }

  /** The script fails exactly when a key is unset, and then names the first
      unset key in order, whatever the template. */
  lemma {:induction false} FirstMissingKey(template: string, keys: seq<string>, env: map<string, string>)
    ensures SubstituteAll(template, keys, env).MissingVariable? <==> exists i :: 0 <= i < |keys| && !IsSet(env, keys[i])
    ensures SubstituteAll(template, keys, env).MissingVariable? ==>
              exists i :: 0 <= i < |keys| && keys[i] == SubstituteAll(template, keys, env).key
                          && !IsSet(env, keys[i]) && forall j :: 0 <= j < i ==> IsSet(env, keys[j])
    decreases |keys|
  {
    if keys != [] && IsSet(env, keys[0]) {
      var next := Replace(template, Placeholder(keys[0]), env[keys[0]]);
      FirstMissingKey(next, keys[1..], env);
      if SubstituteAll(template, keys, env).MissingVariable? {
        var i :| 0 <= i < |keys[1..]| && keys[1..][i] == SubstituteAll(next, keys[1..], env).key
                 && !IsSet(env, keys[1..][i]) && forall j :: 0 <= j < i ==> IsSet(env, keys[1..][j]);
        assert keys[i + 1] == SubstituteAll(template, keys, env).key;
        assert forall j :: 0 <= j < i + 1 ==> IsSet(env, keys[j]) by {
          forall j | 0 <= j < i + 1 ensures IsSet(env, keys[j]) {
            if j > 0 { assert keys[j] == keys[1..][j - 1]; }
          }
        }
      }
      if exists i :: 0 <= i < |keys| && !IsSet(env, keys[i]) {
        var i :| 0 <= i < |keys| && !IsSet(env, keys[i]);
        assert i > 0 && keys[1..][i - 1] == keys[i];
      }
    }
  }

  /** A template without any of the placeholders is written unchanged. */
  lemma {:induction false} NoPlaceholdersUnchanged(template: string, keys: seq<string>, env: map<string, string>)
    requires forall k :: k in keys ==> IsSet(env, k)
    requires forall k :: k in keys ==> !Occurs(template, Placeholder(k))
    ensures SubstituteAll(template, keys, env) == Written(template)
    decreases |keys|
  {
    if keys != [] {
      ReplaceAbsent(template, Placeholder(keys[0]), env[keys[0]]);
      NoPlaceholdersUnchanged(template, keys[1..], env);
    }
  }

  /** Substitution is sequential: a value inserted for MYSQL_USER that is
      itself the MYSQL_HOST placeholder is replaced in the next step. */
  lemma EarlierValueIsRescanned(env: map<string, string>)
    requires IsSet(env, "MYSQL_USER") && IsSet(env, "MYSQL_HOST")
    requires IsSet(env, "MYSQL_PASSWORD") && IsSet(env, "MYSQL_DB")
    requires env["MYSQL_USER"] == Placeholder("MYSQL_HOST")
    requires !Occurs(env["MYSQL_HOST"], Placeholder("MYSQL_PASSWORD"))
    requires !Occurs(env["MYSQL_HOST"], Placeholder("MYSQL_DB"))
    ensures SubstituteAll(Placeholder("MYSQL_USER"), KEYS, env) == Written(env["MYSQL_HOST"])
  {
    var host := env["MYSQL_HOST"];
    assert Replace(Placeholder("MYSQL_USER"), Placeholder("MYSQL_USER"), Placeholder("MYSQL_HOST"))
        == Placeholder("MYSQL_HOST");
    assert Replace(Placeholder("MYSQL_HOST"), Placeholder("MYSQL_HOST"), host) == host;
    ReplaceAbsent(host, Placeholder("MYSQL_PASSWORD"), env["MYSQL_PASSWORD"]);
    ReplaceAbsent(host, Placeholder("MYSQL_DB"), env["MYSQL_DB"]);
    assert KEYS[1..][1..][1..][1..] == [];
  }

  /** The script's loop: for each key in order, fail on an unset value,
      otherwise replace its placeholder; the file is written only after
      the last key. */
  method GenerateInitSql(template: string, env: map<string, string>) returns (r: Generated)
    ensures r == SubstituteAll(template, KEYS, env)
  {
    var sql := template;
    var i := 0;
    while i < |KEYS|
      invariant 0 <= i <= |KEYS|
      invariant SubstituteAll(sql, KEYS[i..], env) == SubstituteAll(template, KEYS, env)
    {
      var key := KEYS[i];
      if !IsSet(env, key) {
        return MissingVariable(key);
      }
      assert KEYS[i..][1..] == KEYS[i + 1..];
      sql := Replace(sql, Placeholder(key), env[key]);
      i := i + 1;
    }
    return Written(sql);
  }
}
