/**
 * The URL rewrite of `read_note_from_scrapbox`: `re.sub` with the pattern
 * `(https://scrapbox\.io)/([^/]+)/([^/]+)` and the replacement
 * `\1/api/pages/\2/\3`, which turns a page URL into the URL of the page's JSON
 * in the Scrapbox API. All three scripts carry the same copy; it is modelled once.
 */
module ApiUrl {
  import opened Strings
  import opened Scrapbox

  /** The text group 1 of the pattern matches. */
  const Host: string := "https://scrapbox.io"

  /** The longest run of non-slash characters at the front of `s`: what a greedy `[^/]+` consumes. */
  function NonSlashRun(s: string): (r: string)
    ensures r <= s
    ensures '/' !in r
    ensures |r| == |s| || s[|r|] == '/'
  {
    if |s| == 0 || s[0] == '/' then "" else [s[0]] + NonSlashRun(s[1..])
  }

  /**
   * The groups 2 and 3 of a match of the pattern at the very front of `s`, if the
   * pattern matches there. Greedy `[^/]+` never backtracks usefully: a shorter run
   * is followed by a non-slash character, so group 2 is the whole run and must be
   * followed by "/".
   */
  function MatchAt(s: string): (m: Option<(string, string)>)
    ensures m.Some? ==>
      && |m.value.0| > 0 && '/' !in m.value.0
      && |m.value.1| > 0 && '/' !in m.value.1
      && MatchLength(m.value) <= |s|
  {
    if !(Host + "/" <= s) then None
    else
      var r := s[|Host| + 1..];
      var p := NonSlashRun(r);
      if |p| == 0 || |p| == |r| then None
      else
        var t := NonSlashRun(r[|p| + 1..]);
        if |t| == 0 then None
        else Some((p, t))
  }

  /** The length of the text a match `(p, t)` covers. */
  function MatchLength(m: (string, string)): nat
  {
    |Host| + 1 + |m.0| + 1 + |m.1|
  }

  /** A match covers exactly the text "https://scrapbox.io/" + group 2 + "/" + group 3. */
  lemma MatchCovers(s: string)
    requires MatchAt(s).Some?
    ensures var m := MatchAt(s).value; s[..MatchLength(m)] == Host + "/" + m.0 + "/" + m.1
  {
    var m := MatchAt(s).value;
    var r := s[|Host| + 1..];
    assert s[..|Host| + 1] == Host + "/";
    assert r[..|m.0|] == m.0 && r[|m.0|] == '/';
    assert r[|m.0| + 1..][..|m.1|] == m.1;
    assert s[..MatchLength(m)] == s[..|Host| + 1] + r[..|m.0|] + [r[|m.0|]] + r[|m.0| + 1..][..|m.1|];
  }

  /** `re.sub(pattern, replacement, s)`: scan left to right, replace every non-overlapping match. */
  function Rewrite(s: string): string
    decreases |s|
  {
    if |s| == 0 then ""
    else
      match MatchAt(s)
      case Some(m) =>
        Host + "/api/pages/" + m.0 + "/" + m.1 + Rewrite(s[MatchLength(m)..])
      case None => [s[0]] + Rewrite(s[1..])
  }

  /** The pattern matches a page URL followed by nothing or by a slash, with the project and the title as its groups. */
  lemma MatchPageUrl(p: string, t: string, rest: string)
    requires |p| > 0 && '/' !in p
    requires |t| > 0 && '/' !in t
    requires |rest| == 0 || rest[0] == '/'
    ensures MatchAt(Host + "/" + p + "/" + t + rest) == Some((p, t))
  {
    var u := Host + "/";
    var s := Host + "/" + p + "/" + t + rest;
    assert s == u + (p + ("/" + (t + rest)));
    var r := s[|u|..];
    assert r == p + ("/" + (t + rest));
    NonSlashRunOf(p, "/" + (t + rest));
    assert r[|p| + 1..] == t + rest;
    NonSlashRunOf(t, rest);
  }

  /**
   * A page URL followed by nothing, or by text that starts with "/", becomes the
   * page's API URL followed by the rewrite of that text, when the project name and
   * the title are non-empty and free of slashes.
   */
  lemma RewritePageUrl(p: string, t: string, rest: string)
    requires |p| > 0 && '/' !in p
    requires |t| > 0 && '/' !in t
    requires |rest| == 0 || rest[0] == '/'
    ensures Rewrite(Host + "/" + p + "/" + t + rest) == Host + "/api/pages/" + p + "/" + t + Rewrite(rest)
  {
    var s := Host + "/" + p + "/" + t + rest;
    MatchPageUrl(p, t, rest);
    assert s[MatchLength((p, t))..] == rest;
  }

  /** The note URL of a project and a title maps to the API URL of that page. */
  lemma RewriteNoteUrl(p: string, t: string)
    requires |p| > 0 && '/' !in p
    requires |t| > 0 && '/' !in t
    ensures Rewrite(Host + "/" + p + "/" + t) == Host + "/api/pages/" + p + "/" + t
  {
    RewritePageUrl(p, t, "");
    assert Host + "/" + p + "/" + t + "" == Host + "/" + p + "/" + t;
  }

  /** A run of non-slash characters followed by a slash or by nothing is what the greedy group consumes. */
  lemma {:induction false} NonSlashRunOf(a: string, b: string)
    requires '/' !in a
    requires |b| == 0 || b[0] == '/'
    ensures NonSlashRun(a + b) == a
  {
    if |a| > 0 {
      assert a[0] in a;
      assert (a + b)[1..] == a[1..] + b;
      NonSlashRunOf(a[1..], b);
      assert a == [a[0]] + a[1..];
    } else {
      assert a + b == b;
    }
  }

  /** A text in which the pattern matches nowhere is left unchanged. */
  lemma {:induction false} RewriteWithoutMatch(s: string)
    requires forall i :: 0 <= i <= |s| ==> MatchAt(s[i..]).None?
    ensures Rewrite(s) == s
  {
    if |s| > 0 {
      assert s[0..] == s;
      forall i | 0 <= i <= |s| - 1
        ensures MatchAt(s[1..][i..]).None?
      {
        assert s[1..][i..] == s[i + 1..];
      }
      RewriteWithoutMatch(s[1..]);
      assert s == [s[0]] + s[1..];
    }
  }
}
