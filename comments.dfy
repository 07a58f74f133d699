/**
 * `stripJsonComments(text)` in tools/hass/layout/index.js: two global regular
 * expression replacements, written out as the left-to-right scans the regular
 * expression engine performs.
 *
 * Pass 1, `/\/\*[\s\S]*?\*\//g` replaced by "": at each position, an opening
 * slash-star followed later by a closing star-slash is removed together with
 * everything up to the first such closing; otherwise the character is kept
 * and the scan moves one character on.
 *
 * Pass 2, `/(^|[^\\:])\/\/.*$/gm` replaced by the captured prefix: at a line
 * start, `//` and the rest of the line go; elsewhere a character other than
 * `\` or `:` followed by `//` is kept and the rest of the line goes.
 */
module Comments {
  import opened Wrappers
  import opened Matcher

  // ---------------------------------------------------------------------------
  // Pass 1: block comments
  // ---------------------------------------------------------------------------

  /** The first j >= i at which a star-slash starts. */
  function CloseFrom(s: string, i: nat): (r: Option<nat>)
    ensures r.Some? ==> i <= r.value && r.value + 2 <= |s| && s[r.value] == '*' && s[r.value + 1] == '/'
    ensures r.Some? ==> forall j :: i <= j < r.value ==> !(s[j] == '*' && s[j + 1] == '/')
    ensures r.None? ==> forall j :: i <= j && j + 1 < |s| ==> !(s[j] == '*' && s[j + 1] == '/')
    decreases |s| - i
  {
    if i + 2 > |s| then None
    else if s[i] == '*' && s[i + 1] == '/' then Some(i)
    else CloseFrom(s, i + 1)
  }

  /** s starts with a complete block comment. */
  predicate OpensBlock(s: string) {
    |s| >= 2 && s[0] == '/' && s[1] == '*' && CloseFrom(s, 2).Some?
  }

  /** `.replace(/\/\*[\s\S]*?\*\//g, "")` */
  function StripBlocks(s: string): (r: string)
    ensures |r| <= |s|
    decreases |s|
  {
    if s == [] then []
    else if OpensBlock(s) then StripBlocks(s[CloseFrom(s, 2).value + 2..])
    else [s[0]] + StripBlocks(s[1..])
  }

  // ---------------------------------------------------------------------------
  // Pass 2: line comments
  // ---------------------------------------------------------------------------

  /** The index of the first line terminator in s, or |s|: where `.*` stops. */
  function LineEnd(s: string): (r: nat)
    ensures r <= |s|
    ensures forall j :: 0 <= j < r ==> !IsLineTerminator(s[j])
    ensures r < |s| ==> IsLineTerminator(s[r])
  {
    if s == [] || IsLineTerminator(s[0]) then 0 else 1 + LineEnd(s[1..])
  }

  predicate SlashSlash(s: string, i: nat) {
    i + 1 < |s| && s[i] == '/' && s[i + 1] == '/'
  }

  /**
   * `.replace(/(^|[^\\:])\/\/.*$/gm, (match, prefix) => prefix)` on the rest s of
   * the text; atLineStart says whether `^` holds at its first position.
   */
  function StripLines(s: string, atLineStart: bool): (r: string)
    ensures |r| <= |s|
    decreases |s|
  {
    if s == [] then []
    else if atLineStart && SlashSlash(s, 0) then
      StripLines(s[LineEnd(s)..], false)
    else if s[0] != '\\' && s[0] != ':' && SlashSlash(s, 1) then
      [s[0]] + StripLines(s[1 + LineEnd(s[1..])..], false)
    else
      [s[0]] + StripLines(s[1..], IsLineTerminator(s[0]))
  }

  /** `stripJsonComments(text)` */
  function StripJsonComments(text: string): (r: string)
    ensures |r| <= |text|
  {
    StripLines(StripBlocks(text), true)
  }

  // ---------------------------------------------------------------------------
  // Properties
  // ---------------------------------------------------------------------------

  /** s has no slash-star anywhere. */
  predicate NoBlockOpen(s: string) {
    forall i :: 0 <= i < |s| - 1 ==> !(s[i] == '/' && s[i + 1] == '*')
  }

  /** Text without a slash-star passes the first pass unchanged. */
  lemma {:induction false} NoBlockUnchanged(s: string)
    requires NoBlockOpen(s)
    ensures StripBlocks(s) == s
    decreases |s|
  {
    if s != [] {
      assert !OpensBlock(s);
      assert NoBlockOpen(s[1..]) by {
        forall i | 0 <= i < |s[1..]| - 1 ensures !(s[1..][i] == '/' && s[1..][i + 1] == '*') {
          assert s[1..][i] == s[i + 1] && s[1..][i + 1] == s[i + 2];
        }
      }
      NoBlockUnchanged(s[1..]);
    }
  }

  /**
   * Every `//` in s after its first character follows `:` or `\`, and a `//`
   * at its first character is not at a line start.
   */
  predicate Kept(s: string, atLineStart: bool) {
    (forall i :: 1 <= i < |s| && SlashSlash(s, i) ==> s[i - 1] == ':' || s[i - 1] == '\\') &&
    (atLineStart ==> !SlashSlash(s, 0))
  }

  /** Text whose every `//` follows `:` or `\` (`https://`, an escaped `\//`) passes the second pass unchanged. */
  lemma {:induction false} KeptUnchanged(s: string, atLineStart: bool)
    requires Kept(s, atLineStart)
    ensures StripLines(s, atLineStart) == s
    decreases |s|
  {
    if s != [] {
      assert !(s[0] != '\\' && s[0] != ':' && SlashSlash(s, 1));
      var t := s[1..];
      forall i | 1 <= i < |t| && SlashSlash(t, i) ensures t[i - 1] == ':' || t[i - 1] == '\\' {
        assert SlashSlash(s, i + 1);
      }
      if SlashSlash(t, 0) {
        assert SlashSlash(s, 1);
        assert !IsLineTerminator(s[0]);
      }
      KeptUnchanged(t, IsLineTerminator(s[0]));
    }
  }

  /** No `//` at all: the second pass changes nothing. */
  lemma NoLineCommentUnchanged(s: string, atLineStart: bool)
    requires forall i :: 0 <= i < |s| ==> !SlashSlash(s, i)
    ensures StripLines(s, atLineStart) == s
  {
    KeptUnchanged(s, atLineStart);
  }

  /** Text containing neither a slash-star nor `//` is returned unchanged. */
  lemma PlainTextUnchanged(text: string)
    requires NoBlockOpen(text) && forall i :: 0 <= i < |text| ==> !SlashSlash(text, i)
    ensures StripJsonComments(text) == text
  {
    NoBlockUnchanged(text);
    NoLineCommentUnchanged(text, true);
  }

  /** Text without a slash-star whose every `//` follows `:` or `\` is returned unchanged. */
  lemma UrlsKept(text: string)
    requires NoBlockOpen(text) && Kept(text, true)
    ensures StripJsonComments(text) == text
  {
    NoBlockUnchanged(text);
    KeptUnchanged(text, true);
  }

  /**
   * A kept stretch u that ends in `:` or `\` passes the second pass unchanged
   * whatever follows it, and the scan goes on after it as in mid-line: the
   * `//` of `https://` is protected wherever it stands in the text.
   */
  lemma {:induction false} KeptPrefix(u: string, v: string, atLineStart: bool)
    requires Kept(u, atLineStart) && |u| > 0 && (u[|u| - 1] == ':' || u[|u| - 1] == '\\')
    ensures StripLines(u + v, atLineStart) == u + StripLines(v, false)
    decreases |u|
  {
    var s := u + v;
    assert !(atLineStart && SlashSlash(s, 0)) by {
      if |u| > 1 && SlashSlash(s, 0) {
        assert SlashSlash(u, 0);
      }
    }
    assert !(s[0] != '\\' && s[0] != ':' && SlashSlash(s, 1)) by {
      if |u| > 2 && SlashSlash(s, 1) {
        assert SlashSlash(u, 1);
      }
    }
    assert StripLines(s, atLineStart) == [u[0]] + StripLines(s[1..], IsLineTerminator(u[0]));
    var rest := StripLines(v, false);
    if |u| == 1 {
      assert s[1..] == v;
      assert u == [u[0]];
    } else {
      var t := u[1..];
      assert Kept(t, IsLineTerminator(u[0])) by {
        forall i | 1 <= i < |t| && SlashSlash(t, i) ensures t[i - 1] == ':' || t[i - 1] == '\\' {
          assert SlashSlash(u, i + 1);
        }
        if SlashSlash(t, 0) {
          assert SlashSlash(u, 1);
        }
      }
      assert s[1..] == t + v;
      KeptPrefix(t, v, IsLineTerminator(u[0]));
      assert [u[0]] + (t + rest) == u + rest;
    }
  }

  /** A block comment with no star-slash inside is removed, and the scan goes on right after it. */
  lemma BlockRemoved(c: string, v: string)
    requires forall j :: 0 <= j < |c| - 1 ==> !(c[j] == '*' && c[j + 1] == '/')
    ensures StripBlocks("/*" + c + "*/" + v) == StripBlocks(v)
  {
    var s := "/*" + c + "*/" + v;
    var p := |c| + 2;
    assert s[p] == '*' && s[p + 1] == '/';
    forall j | 2 <= j < p ensures !(s[j] == '*' && s[j + 1] == '/') {
      if j + 1 < p {
        assert s[j] == c[j - 2] && s[j + 1] == c[j - 1];
      } else {
        assert s[j + 1] == '*';
      }
    }
    assert CloseFrom(s, 2) == Some(p);
    assert s[p + 2..] == v;
  }

  /**
   * Text without a slash-star passes the first pass unchanged whatever follows
   * it, unless what follows starts with a star: so a block comment is removed
   * wherever it stands after such text.
   */
  lemma {:induction false} NoBlockPrefix(u: string, x: string)
    requires NoBlockOpen(u) && (x == [] || x[0] != '*')
    ensures StripBlocks(u + x) == u + StripBlocks(x)
    decreases |u|
  {
    if u != [] {
      var s := u + x;
      assert !OpensBlock(s) by {
        if |u| >= 2 {
          assert s[0] == u[0] && s[1] == u[1];
        }
      }
      assert StripBlocks(s) == [u[0]] + StripBlocks(u[1..] + x) by {
        assert s[1..] == u[1..] + x;
      }
      assert StripBlocks(u[1..] + x) == u[1..] + StripBlocks(x) by {
        assert NoBlockOpen(u[1..]) by {
          forall i | 0 <= i < |u[1..]| - 1 ensures !(u[1..][i] == '/' && u[1..][i + 1] == '*') {
            assert u[1..][i] == u[i + 1] && u[1..][i + 1] == u[i + 2];
          }
        }
        NoBlockPrefix(u[1..], x);
      }
      assert [u[0]] + (u[1..] + StripBlocks(x)) == u + StripBlocks(x);
    } else {
      assert u + x == x;
    }
  }

  /** After text without a slash-star, a block comment goes and the text before it stays. */
  lemma BlockRemovedAfter(u: string, c: string, v: string)
    requires NoBlockOpen(u)
    requires forall j :: 0 <= j < |c| - 1 ==> !(c[j] == '*' && c[j + 1] == '/')
    ensures StripBlocks(u + "/*" + c + "*/" + v) == u + StripBlocks(v)
  {
    var x := "/*" + c + "*/" + v;
    assert u + "/*" + c + "*/" + v == u + x;
    NoBlockPrefix(u, x);
    BlockRemoved(c, v);
  }

  /** Text without a line terminator only moves where `.*` stops by its own length. */
  lemma {:induction false} LineEndAfter(p: string, q: string)
    requires forall j :: 0 <= j < |p| ==> !IsLineTerminator(p[j])
    ensures LineEnd(p + q) == |p| + LineEnd(q)
    decreases |p|
  {
    if p == [] {
      assert p + q == q;
    } else {
      assert (p + q)[0] == p[0];
      assert (p + q)[1..] == p[1..] + q;
      LineEndAfter(p[1..], q);
    }
  }

  /** The rest of a `//` line ends where its text c ends, when c holds no line terminator. */
  lemma CommentLineEnd(c: string, v: string)
    requires forall j :: 0 <= j < |c| ==> !IsLineTerminator(c[j])
    requires v == [] || IsLineTerminator(v[0])
    ensures LineEnd("//" + c + v) == |c| + 2
  {
    var p := "//" + c;
    forall j | 0 <= j < |p| ensures !IsLineTerminator(p[j]) {
      if j >= 2 {
        assert p[j] == c[j - 2];
      }
    }
    LineEndAfter(p, v);
  }

  /** At a line start, `//` and the rest of its line are removed; the line terminator stays. */
  lemma LineCommentRemoved(c: string, v: string)
    requires forall j :: 0 <= j < |c| ==> !IsLineTerminator(c[j])
    requires v == [] || IsLineTerminator(v[0])
    ensures StripLines("//" + c + v, true) == StripLines(v, false)
  {
    var s := "//" + c + v;
    CommentLineEnd(c, v);
    assert SlashSlash(s, 0);
    assert s[|c| + 2..] == v;
  }

  /**
   * After any character x other than `\` and `:` (and other than `/` at a line
   * start), `//` and the rest of its line are removed and x stays.
   */
  lemma LineCommentAfter(x: char, c: string, v: string, atLineStart: bool)
    requires x != '\\' && x != ':' && !(atLineStart && x == '/')
    requires forall j :: 0 <= j < |c| ==> !IsLineTerminator(c[j])
    requires v == [] || IsLineTerminator(v[0])
    ensures StripLines([x] + "//" + c + v, atLineStart) == [x] + StripLines(v, false)
  {
    var s := [x] + "//" + c + v;
    assert s[1..] == "//" + c + v;
    CommentLineEnd(c, v);
    assert SlashSlash(s, 1);
    assert !(atLineStart && SlashSlash(s, 0));
    assert s[1 + |c| + 2..] == v;
  }

  /** The line terminators of s, in order. */
  function Terminators(s: string): (r: string)
    ensures forall c | c in r :: IsLineTerminator(c)
  {
    if s == [] then []
    else (if IsLineTerminator(s[0]) then [s[0]] else []) + Terminators(s[1..])
  }

  lemma {:induction false} TerminatorsSkip(s: string, e: nat)
    requires e <= |s| && forall j :: 0 <= j < e ==> !IsLineTerminator(s[j])
    ensures Terminators(s) == Terminators(s[e..])
  {
    if e > 0 {
      TerminatorsSkip(s[1..], e - 1);
      assert s[1..][e - 1..] == s[e..];
    }
  }

  /** The second pass deletes only up to the end of a line: every line terminator survives, in order. */
  lemma {:induction false} StripLinesKeepsLines(s: string, atLineStart: bool)
    ensures Terminators(StripLines(s, atLineStart)) == Terminators(s)
    decreases |s|
  {
    if s != [] {
      if atLineStart && SlashSlash(s, 0) {
        StripLinesKeepsLines(s[LineEnd(s)..], false);
        TerminatorsSkip(s, LineEnd(s));
      } else if s[0] != '\\' && s[0] != ':' && SlashSlash(s, 1) {
        var t := s[1..];
        var rest := t[LineEnd(t)..];
        assert rest == s[1 + LineEnd(t)..];
        StripLinesKeepsLines(rest, false);
        TerminatorsSkip(t, LineEnd(t));
        assert ([s[0]] + StripLines(rest, false))[1..] == StripLines(rest, false);
      } else {
        StripLinesKeepsLines(s[1..], IsLineTerminator(s[0]));
        assert ([s[0]] + StripLines(s[1..], IsLineTerminator(s[0])))[1..] == StripLines(s[1..], IsLineTerminator(s[0]));
      }
    }
  }

  /** A URL value survives: `"https://example.com"`. */
  lemma UrlExample()
    ensures StripJsonComments("\"https://example.com\"") == "\"https://example.com\""
  {
    var s := "\"https://example.com\"";
    assert forall i | 0 <= i < |s| - 1 :: !(s[i] == '/' && s[i + 1] == '*');
    assert SlashSlash(s, 7);
    assert forall i | 1 <= i < |s| && SlashSlash(s, i) :: i == 7;
    UrlsKept(s);
  }

  /** A block comment goes, whatever it holds. */
  lemma BlockCommentExample()
    ensures StripJsonComments("a/*x*/b") == "ab"
  {
    var s := "a/*x*/b";
    var u := s[1..];
    assert u == "/*x*/b";
    assert CloseFrom(u, 2) == Some(3);
    assert u[5..] == "b";
    assert StripBlocks("b") == "b";
    assert StripBlocks(u) == "b";
    assert StripBlocks(s) == "ab";
    PlainTextUnchanged("ab");
  }

  lemma LineCommentTail()
    ensures StripLines(" //c\n2", false) == " \n2"
  {
    var u := " //c\n2";
    assert LineEnd("\n2") == 0;
    assert LineEnd("c\n2") == 1 by { assert "c\n2"[1..] == "\n2"; }
    assert LineEnd("/c\n2") == 2 by { assert "/c\n2"[1..] == "c\n2"; }
    assert LineEnd("//c\n2") == 3 by { assert "//c\n2"[1..] == "/c\n2"; }
    assert u[1..] == "//c\n2";
    assert u[4..] == "\n2";
    NoLineCommentUnchanged("\n2", false);
  }

  lemma LineCommentPass()
    ensures StripLines("1 //c\n2", true) == "1 \n2"
  {
    var s := "1 //c\n2";
    assert s[1..] == " //c\n2";
    assert StripLines(s, true) == [s[0]] + StripLines(s[1..], false);
    LineCommentTail();
  }

  /** A line comment goes up to, but not including, its newline; the character before it stays. */
  lemma LineCommentExample()
    ensures StripJsonComments("1 //c\n2") == "1 \n2"
  {
    NoBlockUnchanged("1 //c\n2");
    LineCommentPass();
  }
}
