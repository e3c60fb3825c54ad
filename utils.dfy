/**
 * `remove_html_tags` (src/utils.rs): delete the literals "<br />" and "&quot;", then delete
 * every leftmost match of the regular expression `<[^>]*>`, that is, each `<` together with
 * everything up to and including the next `>`.
 */
module Utils {
  import opened Text

  /** First index at or after `from` holding `c`. */
  function IndexFrom(s: string, c: char, from: nat): (j: nat)
    requires from <= |s| && c in s[from..]
    ensures from <= j < |s| && s[j] == c
    ensures forall k :: from <= k < j ==> s[k] != c
    decreases |s| - from
  {
    if s[from] == c then from else IndexFrom(s, c, from + 1)
  }

  /** `Regex::new("<[^>]*>").replace_all(s, "")`, scanning left to right. */
  function StripTags(s: string): string
    decreases |s|
  {
    if s == [] then []
    else if s[0] == '<' && '>' in s[1..] then StripTags(s[IndexFrom(s, '>', 1) + 1..])
    else [s[0]] + StripTags(s[1..])
  }

  function RemoveHtmlTags(text: string): string
  {
    StripTags(ReplaceAll(ReplaceAll(text, "<br />", ""), "&quot;", ""))
  }

  /** No `<` in the string is followed, anywhere later, by a `>`: no tag is left. */
  predicate NoTag(r: string)
  {
    forall i, j :: 0 <= i < j < |r| && r[i] == '<' ==> r[j] != '>'
  }

  lemma {:induction false} StripTagsNoOpen(s: string)
    requires '<' !in s
    ensures StripTags(s) == s
    decreases |s|
  {
    if s != [] {
      StripTagsNoOpen(s[1..]);
      assert s == [s[0]] + s[1..];
    }
  }

  lemma {:induction false} StripTagsSubseq(s: string)
    ensures IsSubseq(StripTags(s), s)
    decreases |s|
  {
    if s != [] {
      if s[0] == '<' && '>' in s[1..] {
        var j := IndexFrom(s, '>', 1);
        StripTagsSubseq(s[j + 1..]);
        SubseqOfSuffix(StripTags(s), s, j + 1);
      } else {
        StripTagsSubseq(s[1..]);
        ConsSubseq(s[0], StripTags(s[1..]), s);
      }
    }
  }

  lemma {:induction false} SubseqOmits(a: string, b: string, c: char)
    requires IsSubseq(a, b) && c !in b
    ensures c !in a
    decreases |b|
  {
    if a != [] {
      if a[0] == b[0] && IsSubseq(a[1..], b[1..]) {
        SubseqOmits(a[1..], b[1..], c);
        assert a == [a[0]] + a[1..];
      } else {
        SubseqOmits(a, b[1..], c);
      }
    }
  }

  lemma {:induction false} StripTagsNoTag(s: string)
    ensures NoTag(StripTags(s))
    decreases |s|
  {
    if s != [] {
      if s[0] == '<' && '>' in s[1..] {
        StripTagsNoTag(s[IndexFrom(s, '>', 1) + 1..]);
      } else {
        var t := StripTags(s[1..]);
        StripTagsNoTag(s[1..]);
        if s[0] == '<' {
          StripTagsSubseq(s[1..]);
          SubseqOmits(t, s[1..], '>');
        }
        var r := [s[0]] + t;
        forall i, j | 0 <= i < j < |r| && r[i] == '<' ensures r[j] != '>' {
          if i > 0 {
            assert r[i] == t[i - 1] && r[j] == t[j - 1];
          } else {
            assert r[j] == t[j - 1];
          }
        }
      }
    }
  }

  /** Text with no `<` and no "&quot;" is returned unchanged. */
  lemma RemoveHtmlTagsUnchanged(text: string)
    requires '<' !in text && Absent(text, "&quot;")
    ensures RemoveHtmlTags(text) == text
  {
    AbsentByChar(text, "<br />", 0);
    ReplaceAllAbsent(text, "<br />", "");
    ReplaceAllAbsent(text, "&quot;", "");
    StripTagsNoOpen(text);
  }

  /** Without `<`, the only change is the deletion of "&quot;"; every other entity stays. */
  lemma RemoveHtmlTagsEntities(text: string)
    requires '<' !in text
    ensures RemoveHtmlTags(text) == ReplaceAll(text, "&quot;", "")
  {
    AbsentByChar(text, "<br />", 0);
    ReplaceAllAbsent(text, "<br />", "");
    var u := ReplaceAll(text, "&quot;", "");
    ReplaceAllEmptySubseq(text, "&quot;");
    SubseqOmits(u, text, '<');
    StripTagsNoOpen(u);
  }

  /** The output is obtained from the input by deleting characters, so it is never longer. */
  lemma RemoveHtmlTagsSubseq(text: string)
    ensures IsSubseq(RemoveHtmlTags(text), text)
    ensures |RemoveHtmlTags(text)| <= |text|
  {
    var u := ReplaceAll(text, "<br />", "");
    var v := ReplaceAll(u, "&quot;", "");
    ReplaceAllEmptySubseq(text, "<br />");
    ReplaceAllEmptySubseq(u, "&quot;");
    StripTagsSubseq(v);
    SubseqTrans(v, u, text);
    SubseqTrans(StripTags(v), v, text);
    SubseqLength(RemoveHtmlTags(text), text);
  }

  /** No `<` of the output has a `>` after it. */
  lemma RemoveHtmlTagsNoTag(text: string)
    ensures NoTag(RemoveHtmlTags(text))
  {
    StripTagsNoTag(ReplaceAll(ReplaceAll(text, "<br />", ""), "&quot;", ""));
  }

  /** Text without `<` passes the tag pass unchanged. */
  lemma {:induction false} StripTagsPlainPrefix(a: string, b: string)
    requires '<' !in a
    ensures StripTags(a + b) == a + StripTags(b)
    decreases |a|
  {
    if a != [] {
      assert (a + b)[0] == a[0] && (a + b)[1..] == a[1..] + b;
      StripTagsPlainPrefix(a[1..], b);
      assert a == [a[0]] + a[1..];
    } else {
      assert a + b == b;
    }
  }

  lemma RemoveHtmlTagsBreak()
    ensures RemoveHtmlTags("a<br />b") == "ab"
  {
    assert "a<br />b" == "a" + "<br />" + "b";
    MismatchAt("a<br />b", "<br />", 0, 0);
    ReplaceAllFirst("a", "<br />", "b", "");
    assert ReplaceAll("a<br />b", "<br />", "") == "ab";
    AbsentByChar("ab", "&quot;", 0);
    ReplaceAllAbsent("ab", "&quot;", "");
    StripTagsNoOpen("ab");
  }

  /** With neither literal present, only the tag pass acts. */
  lemma RemoveHtmlTagsIsTagPass(text: string)
    requires Absent(text, "<br />") && Absent(text, "&quot;")
    ensures RemoveHtmlTags(text) == StripTags(text)
  {
    ReplaceAllAbsent(text, "<br />", "");
    ReplaceAllAbsent(text, "&quot;", "");
  }

  /** A tag `<n>` whose name holds no `>` is dropped as a whole. */
  lemma StripTagsTag(n: string, rest: string)
    requires '>' !in n
    ensures StripTags("<" + n + ">" + rest) == StripTags(rest)
  {
    var s := "<" + n + ">" + rest;
    assert s[1..] == n + ">" + rest;
    assert s[|n| + 1] == '>';
    var j := IndexFrom(s, '>', 1);
    assert s[j + 1..] == rest;
  }

  /**
   * An element `<n>x<m>` followed by `y`, with text free of `<`, loses both tags and keeps its
   * text verbatim: "<b>Hello</b> &amp; world" becomes "Hello &amp; world".
   */
  lemma StripTagsElement(n: string, x: string, m: string, y: string)
    requires '>' !in n && '>' !in m && '<' !in x && '<' !in y
    ensures StripTags("<" + n + ">" + x + "<" + m + ">" + y) == x + y
  {
    var open := "<" + n + ">";
    var close := "<" + m + ">";
    var tail := close + y;
    ConcatAssoc(open + x, "<", m);
    ConcatAssoc(open + x, "<" + m, ">");
    ConcatAssoc(open + x, close, y);
    ConcatAssoc(open, x, tail);
    assert "<" + n + ">" + x + "<" + m + ">" + y == open + (x + tail);
    StripTagsTag(n, x + tail);
    StripTagsPlainPrefix(x, tail);
    StripTagsTag(m, y);
    StripTagsNoOpen(y);
  }

  /**
   * "<br />" goes before the tag pass. On its own, the tag pass run on `x<a<br />b>y` stops at
   * the `>` of "<br />" and leaves "b>" behind (TagPassAlone); after the literal is deleted,
   * `<ab>` is one tag and goes as a whole (LiteralsBeforeTags).
   */
  lemma TagPassAlone(x: string, a: string, b: string, y: string)
    requires '<' !in x && '>' !in a && '<' !in b && '<' !in y
    ensures StripTags(x + "<" + a + "<br />" + b + ">" + y) == x + b + ">" + y
  {
    var n := a + "<br /";
    var rest := b + ">" + y;
    assert "<br />" == "<br /" + ">";
    ConcatAssoc(x + "<" + a, "<br /", ">");
    ConcatAssoc(x + "<", a, "<br /");
    var p := x + "<" + n + ">";
    ConcatAssoc(p, b, ">");
    ConcatAssoc(p, b + ">", y);
    ConcatAssoc(x, "<", n);
    ConcatAssoc(x, "<" + n, ">");
    ConcatAssoc(x, "<" + n + ">", rest);
    StripTagsTag(n, rest);
    StripTagsNoOpen(rest);
    StripTagsPlainPrefix(x, "<" + n + ">" + rest);
    ConcatAssoc(x, b + ">", y);
    ConcatAssoc(x, b, ">");
  }

  lemma LiteralsBeforeTags(x: string, a: string, b: string, y: string)
    requires '<' !in x && '<' !in a && '<' !in b && '<' !in y
    requires '>' !in a && '>' !in b
    requires '&' !in x && '&' !in a && '&' !in b && '&' !in y
    ensures RemoveHtmlTags(x + "<" + a + "<br />" + b + ">" + y) == x + y
  {
    var pat := "<br />";
    var front := x + "<" + a;
    var back := b + ">" + y;
    var s := front + pat + back;
    ConcatAssoc(front + pat, b, ">");
    ConcatAssoc(front + pat, b + ">", y);
    forall i: nat | i < |front|
      ensures !OccursAt(s, pat, i)
    {
      if i < |x| {
        assert s[i] == x[i];
        MismatchAt(s, pat, i, 0);
      } else if i == |x| {
        if |a| < 5 {
          assert s[i + 1 + |a|] == '<';
          MismatchAt(s, pat, i, 1 + |a|);
        } else {
          assert s[i + 5] == a[4];
          MismatchAt(s, pat, i, 5);
        }
      } else {
        assert s[i] == a[i - |x| - 1];
        MismatchAt(s, pat, i, 0);
      }
    }
    ReplaceAllFirst(front, pat, back, "");
    AbsentByChar(back, pat, 0);
    ReplaceAllAbsent(back, pat, "");
    var u := front + back;
    assert front + "" + back == u;
    AbsentByChar(u, "&quot;", 0);
    ReplaceAllAbsent(u, "&quot;", "");
    var q := "<" + (a + b);
    ConcatAssoc(front, b + ">", y);
    ConcatAssoc(front, b, ">");
    ConcatAssoc(x + "<", a, b);
    ConcatAssoc(x, "<", a + b);
    ConcatAssoc(x, q, ">");
    ConcatAssoc(x, q + ">", y);
    StripTagsTag(a + b, y);
    StripTagsNoOpen(y);
    StripTagsPlainPrefix(x, "<" + (a + b) + ">" + y);
  }
}
