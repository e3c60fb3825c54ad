/**
 * Feed items and the text the bot derives from them (src/bot/rss.rs): the `Content` built
 * from an item, the status body, the base URL handed to Megalodon and the preview template.
 */
module Rss {
  import opened Wrappers
  import opened Errors
  import opened Text
  import Utils
  import PercentCoding

  /** An item's `pubDate` after RFC 2822 parsing: absent, unparsable, or a Unix timestamp. */
  datatype DateStatus = Missing | Invalid | Valid(timestamp: nat)

  /** An RSS item as the parser yields it; `mediaUrl` is the `url` of its first `media:content`. */
  datatype Item = Item(
    pubDate: DateStatus,
    title: Option<string>,
    link: Option<string>,
    description: Option<string>,
    mediaUrl: Option<string>)

  /** One feed item ready to publish. */
  datatype Content = Content(title: string, link: string, description: string, imageUrl: Option<string>)

  /**
   * The `map` step of `Feed::check`: the first missing field, in the order title, link,
   * description, is reported with the feed URL; otherwise the title is kept, the link is
   * percent-decoded and the description loses its HTML.
   */
  function ToContent(url: Url, item: Item): Result<Content, Error>
  {
    if item.title.None? then Err(NoTitle(url))
    else if item.link.None? then Err(NoLink(url))
    else if item.description.None? then Err(NoDescription(url))
    else Ok(Content(
      item.title.value,
      PercentCoding.Decode(item.link.value),
      Utils.RemoveHtmlTags(item.description.value),
      item.mediaUrl))
  }

  /** Which error ToContent reports, for each pattern of missing fields, and what it builds otherwise. */
  lemma ToContentFields(url: Url, item: Item)
    ensures var r := ToContent(url, item);
      && (r == Err(NoTitle(url)) <==> item.title.None?)
      && (r == Err(NoLink(url)) <==> item.title.Some? && item.link.None?)
      && (r == Err(NoDescription(url)) <==> item.title.Some? && item.link.Some? && item.description.None?)
      && (r.Ok? <==> item.title.Some? && item.link.Some? && item.description.Some?)
      && (r.Ok? ==>
        && r.value.title == item.title.value
        && r.value.link == PercentCoding.Decode(item.link.value)
        && r.value.description == Utils.RemoveHtmlTags(item.description.value)
        && r.value.imageUrl == item.mediaUrl)
  {
  }

  // ---------------------------------------------------------------- status body

  /** The status text of `Content::post`: title, description and link, separated by blank lines. */
  function PostBody(c: Content): string
  {
    c.title + "\n\n" + c.description + "\n\n" + c.link
  }

  /** Text before the first line break. */
  function FirstLine(s: string): (r: string)
    ensures |r| <= |s| && r == s[..|r|] && '\n' !in r
    ensures |r| < |s| ==> s[|r|] == '\n'
  {
    if s == [] || s[0] == '\n' then [] else [s[0]] + FirstLine(s[1..])
  }

  /** Text after the last line break. */
  function LastLine(s: string): (r: string)
    ensures |r| <= |s| && r == s[|s| - |r|..] && '\n' !in r
    ensures |r| < |s| ==> s[|s| - |r| - 1] == '\n'
  {
    if s == [] || s[|s| - 1] == '\n' then [] else LastLine(s[..|s| - 1]) + [s[|s| - 1]]
  }

  lemma {:induction false} FirstLinePrefix(a: string, b: string)
    requires '\n' !in a
    ensures FirstLine(a + "\n" + b) == a
    decreases |a|
  {
    if a == [] {
      assert (a + "\n" + b)[0] == '\n';
    } else {
      assert (a + "\n" + b)[1..] == a[1..] + "\n" + b;
      FirstLinePrefix(a[1..], b);
      assert a == [a[0]] + a[1..];
    }
  }

  lemma {:induction false} LastLineSuffix(a: string, b: string)
    requires '\n' !in b
    ensures LastLine(a + "\n" + b) == b
    decreases |b|
  {
    var s := a + "\n" + b;
    if b == [] {
      assert s[|s| - 1] == '\n';
    } else {
      assert s[..|s| - 1] == a + "\n" + b[..|b| - 1];
      LastLineSuffix(a, b[..|b| - 1]);
      assert b == b[..|b| - 1] + [b[|b| - 1]];
    }
  }

  /** The body gives the title and the link back, when neither holds a line break. */
  lemma PostBodyParts(c: Content)
    ensures '\n' !in c.title ==> FirstLine(PostBody(c)) == c.title
    ensures '\n' !in c.link ==> LastLine(PostBody(c)) == c.link
  {
    if '\n' !in c.title {
      assert PostBody(c) == c.title + "\n" + ("\n" + c.description + "\n\n" + c.link);
      FirstLinePrefix(c.title, "\n" + c.description + "\n\n" + c.link);
    }
    if '\n' !in c.link {
      assert PostBody(c) == (c.title + "\n\n" + c.description + "\n") + "\n" + c.link;
      LastLineSuffix(c.title + "\n\n" + c.description + "\n", c.link);
    }
  }

  // ---------------------------------------------------------------- base URL

  /** `Content::post` as written: the last character of the serialised base URL is dropped. */
  function DropLastChar(baseUrl: string): (r: string)
    requires |baseUrl| > 0
    ensures |r| == |baseUrl| - 1 && r == baseUrl[..|r|]
  {
    baseUrl[..|baseUrl| - 1]
  }

  /** A base URL with a path that does not end in `/` loses a real character. */
  lemma DropLastCharLosesPath()
    ensures DropLastChar("https://example.com/pleroma") == "https://example.com/plerom"
  {
  }

  /** All trailing slashes removed, as `get_image_id` does with `trim_end_matches('/')`. */
  function TrimTrailingSlashes(baseUrl: string): (r: string)
    ensures |r| <= |baseUrl| && r == baseUrl[..|r|]
    ensures |r| > 0 ==> r[|r| - 1] != '/'
    ensures forall k :: |r| <= k < |baseUrl| ==> baseUrl[k] == '/'
    decreases |baseUrl|
  {
    if |baseUrl| > 0 && baseUrl[|baseUrl| - 1] == '/' then TrimTrailingSlashes(baseUrl[..|baseUrl| - 1])
    else baseUrl
  }

  /** On a base URL that ends in exactly one slash the two agree. */
  lemma TrimAgreesOnOneSlash(baseUrl: string)
    requires |baseUrl| >= 2 && baseUrl[|baseUrl| - 1] == '/' && baseUrl[|baseUrl| - 2] != '/'
    ensures TrimTrailingSlashes(baseUrl) == DropLastChar(baseUrl)
  {
    var p := baseUrl[..|baseUrl| - 1];
    assert p[|p| - 1] == baseUrl[|baseUrl| - 2];
  }

  /**
   * The two agree exactly when the base URL ends in one slash preceded by something else, or is
   * the single character "/": otherwise the code either drops a real character or keeps a slash.
   */
  lemma TrimAgreesExactly(baseUrl: string)
    requires |baseUrl| > 0
    ensures TrimTrailingSlashes(baseUrl) == DropLastChar(baseUrl) <==>
      baseUrl[|baseUrl| - 1] == '/' && (|baseUrl| == 1 || baseUrl[|baseUrl| - 2] != '/')
  {
    var n := |baseUrl|;
    if baseUrl[n - 1] != '/' {
      assert |TrimTrailingSlashes(baseUrl)| == n;
    } else if n == 1 {
      assert baseUrl[..0] == [];
    } else if baseUrl[n - 2] == '/' {
      var p := baseUrl[..n - 1];
      assert p[|p| - 1] == '/';
      assert |TrimTrailingSlashes(p[..|p| - 1])| <= n - 2;
    } else {
      TrimAgreesOnOneSlash(baseUrl);
    }
  }

  // ---------------------------------------------------------------- preview image

  /** Preview descriptions keep every character before this index. */
  const PreviewLength: nat := 320

  /**
   * The `take_while` of `create_preview`, from index `i`: characters are kept while their index
   * is below 320 or they are not a space.
   */
  function CutFrom(d: string, i: nat): (n: nat)
    requires i <= |d|
    ensures i <= n <= |d|
    ensures forall k :: i <= k < n ==> k < PreviewLength || d[k] != ' '
    ensures n == |d| || (n >= PreviewLength && d[n] == ' ')
    decreases |d| - i
  {
    if i == |d| then i
    else if i < PreviewLength || d[i] != ' ' then CutFrom(d, i + 1)
    else i
  }

  /** The description put into the preview: cut just before the first space at index 320 or later. */
  function PreviewDescription(d: string): (r: string)
    ensures |r| <= |d| && r == d[..|r|]
    ensures |r| >= |d| || |r| >= PreviewLength
    ensures forall k :: PreviewLength <= k < |r| ==> r[k] != ' '
    ensures |r| < |d| ==> d[|r|] == ' '
    ensures |d| <= PreviewLength ==> r == d
  {
    d[..CutFrom(d, 0)]
  }

  /**
   * The preview HTML of `create_preview` for a content's title, description and link and the
   * resolved image source: the placeholders are replaced one after the other, in this order.
   */
  function FillTemplate(template: string, title: string, description: string, link: string, image: string): string
  {
    var t := ReplaceAll(template, "{{title}}", title);
    var t := ReplaceAll(t, "{{description}}", PreviewDescription(description));
    var t := ReplaceAll(t, "{{link}}", link);
    ReplaceAll(t, "{{image-src}}", image)
  }

  /** Every placeholder starts with `{`: a template without `{` is left as it is. */
  lemma FillTemplateNoPlaceholders(template: string, title: string, description: string, link: string, image: string)
    requires '{' !in template
    ensures FillTemplate(template, title, description, link, image) == template
  {
    AbsentByChar(template, "{{title}}", 0);
    ReplaceAllAbsent(template, "{{title}}", title);
    AbsentByChar(template, "{{description}}", 0);
    ReplaceAllAbsent(template, "{{description}}", PreviewDescription(description));
    AbsentByChar(template, "{{link}}", 0);
    ReplaceAllAbsent(template, "{{link}}", link);
    AbsentByChar(template, "{{image-src}}", 0);
    ReplaceAllAbsent(template, "{{image-src}}", image);
  }

  /**
   * The substitutions are sequential: text inserted for `{{title}}` is itself searched for the
   * later placeholders, so a title reading "{{link}}" comes out as the link.
   */
  lemma FillTemplateSequential(description: string, link: string, image: string)
    requires '{' !in link
    ensures FillTemplate("{{title}}", "{{link}}", description, link, image) == link
  {
    ReplaceAllFirst("", "{{title}}", "", "{{link}}");
    assert "" + "{{title}}" + "" == "{{title}}";
    assert "" + "{{link}}" + ReplaceAll("", "{{title}}", "{{link}}") == "{{link}}";
    MismatchAt("{{link}}", "{{description}}", 0, 2);
    ReplaceAllAbsent("{{link}}", "{{description}}", PreviewDescription(description));
    ReplaceAllFirst("", "{{link}}", "", link);
    assert "" + "{{link}}" + "" == "{{link}}";
    assert "" + link + ReplaceAll("", "{{link}}", link) == link;
    AbsentByChar(link, "{{image-src}}", 0);
    ReplaceAllAbsent(link, "{{image-src}}", image);
  }
}
