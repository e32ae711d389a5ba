/** The string operations the scripts use, with Python's meaning. */
module Text {
  predicate StartsWith(s: string, t: string) {
    |t| <= |s| && s[..|t|] == t
  }

  predicate Contains(s: string, t: string) {
    exists i :: 0 <= i <= |s| && StartsWith(s[i..], t)
  }

  /** `s.replace(old, new)`: every occurrence, left to right, without overlaps. */
  function Replace(s: string, what: string, with: string): string
    requires what != ""
  {
    if s == "" then ""
    else if StartsWith(s, what) then with + Replace(s[|what|..], what, with)
    else [s[0]] + Replace(s[1..], what, with)
  }

  /** `s.split('.')[0]` */
  function BeforeDot(s: string): string {
    if s == "" || s[0] == '.' then "" else [s[0]] + BeforeDot(s[1..])
  }

  lemma ContainsPrefix(t: string, rest: string)
    ensures Contains(t + rest, t)
  {
    assert (t + rest)[0..] == t + rest;
  }

  lemma ContainsMeans(s: string, t: string)
    ensures Contains(s, t) <==> exists a, b :: s == a + t + b
  {
    if Contains(s, t) {
      var i :| 0 <= i <= |s| && StartsWith(s[i..], t);
      assert s == s[..i] + t + s[i + |t|..];
    }
    if a, b :| s == a + t + b {
      assert s[|a|..] == t + b;
    }
  }

  lemma HasChar(s: string, t: string, ch: char)
    requires Contains(s, t) && ch in t
    ensures ch in s
  {
    var i :| 0 <= i <= |s| && StartsWith(s[i..], t);
    var j :| 0 <= j < |t| && t[j] == ch;
    assert s[i..][..|t|][j] == s[i + j];
  }

  lemma NeedsChar(s: string, t: string, ch: char)
    requires ch in t && ch !in s
    ensures !Contains(s, t)
  {
    if Contains(s, t) {
      HasChar(s, t, ch);
    }
  }
}
