/**
 * `clean_markdown` of the transform script: image links and HTML tags are
 * removed, runs of three or more newlines are collapsed to two, the escapes
 * `\#` and `\-` are undone and the result is stripped.
 *
 * Each `re.sub` is modelled on the suffix of the text still to be scanned:
 * at the front either the pattern matches, and the match is dropped, or the
 * first character is kept and the scan moves on by one. None of the patterns
 * looks behind, so a match at a position depends on the suffix only.
 */
module CleanMarkdown {
  import opened Results
  import opened Text

  // ------------------------------------------------------------------ image links: !\[.*?\]\(.*?\)

  /**
   * The first occurrence of `sub` in `s` that starts before any '\n' (the
   * reach of `.*?`, which does not cross a line break).
   */
  function FindOnLine(s: string, sub: string): (r: Option<nat>)
    ensures r.Some? ==> OccursAt(s, sub, r.value) && '\n' !in s[..r.value]
    decreases |s|
  {
    if |s| < |sub| then None
    else if sub <= s then Some(0)
    else if s[0] == '\n' then None
    else
      match FindOnLine(s[1..], sub)
      case None => None
      case Some(k) =>
        assert s[1..][k..k + |sub|] == s[k + 1..k + 1 + |sub|];
        assert s[..k + 1] == [s[0]] + s[1..][..k];
        Some(k + 1)
  }

  /** The first occurrence on the first line is found. */
  lemma {:induction false} FindOnLineIs(s: string, sub: string, i: nat)
    requires OccursAt(s, sub, i) && '\n' !in s[..i]
    requires forall j :: 0 <= j < i ==> !OccursAt(s, sub, j)
    ensures FindOnLine(s, sub) == Some(i)
    decreases i
  {
    if i > 0 {
      assert s[0] in s[..i];
      assert !OccursAt(s, sub, 0);
      assert OccursAt(s[1..], sub, i - 1) by {
        assert s[1..][i - 1..i - 1 + |sub|] == s[i..i + |sub|];
      }
      assert '\n' !in s[1..][..i - 1] by {
        assert s[1..][..i - 1] == s[1..i];
      }
      forall j | 0 <= j < i - 1 ensures !OccursAt(s[1..], sub, j) {
        assert !OccursAt(s, sub, j + 1);
      }
      FindOnLineIs(s[1..], sub, i - 1);
    }
  }

  /** The length of the image link `![alt](url)` at the front of `s`, if one matches there. */
  function ImageLinkLength(s: string): (r: Option<nat>)
    ensures r.Some? ==> 5 <= r.value <= |s|
  {
    if !("![" <= s) then None
    else
      match FindOnLine(s[2..], "](")
      case None => None
      case Some(k) =>
        match FindOnLine(s[k + 4..], ")")
        case None => None
        case Some(m) => Some(k + 4 + m + 1)
  }

  /** `re.sub(r'!\[.*?\]\(.*?\)', '', text)`. */
  function RemoveImages(s: string): string
    decreases |s|
  {
    if s == [] then []
    else
      match ImageLinkLength(s)
      case Some(n) => RemoveImages(s[n..])
      case None => [s[0]] + RemoveImages(s[1..])
  }

  /** The markdown of an image link. */
  function ImageLink(alt: string, url: string): string {
    "![" + alt + "](" + url + ")"
  }

  /**
   * Text in which no "![" starts is copied unchanged, as long as it does not
   * end in a '!' that the following text turns into "![".
   */
  lemma {:induction false} RemoveImagesKeepsPrefix(p: string, x: string)
    requires !Contains(p, "![")
    requires p != [] && p[|p| - 1] == '!' ==> x == [] || x[0] != '['
    ensures RemoveImages(p + x) == p + RemoveImages(x)
    decreases |p|
  {
    if p == [] {
      assert p + x == x;
    } else {
      KeepFirst(p, x);
      RemoveImagesKeepsPrefix(p[1..], x);
      ConsAppend(p, RemoveImages(x));
    }
  }

  /** One step of `RemoveImagesKeepsPrefix`: the first character is kept, and the rest meets the same conditions. */
  lemma KeepFirst(p: string, x: string)
    requires p != [] && !Contains(p, "![")
    requires p[|p| - 1] == '!' ==> x == [] || x[0] != '['
    ensures RemoveImages(p + x) == [p[0]] + RemoveImages(p[1..] + x)
    ensures !Contains(p[1..], "![")
    ensures p[1..] != [] && p[1..][|p[1..]| - 1] == '!' ==> x == [] || x[0] != '['
  {
    AppendTail(p, x);
    NoImageAtFront(p, x);
    ContainsCons(p, "![");
    if |p| > 1 {
      assert p[1..][|p| - 2] == p[|p| - 1];
    }
  }

  /** No "![" starts at the front of `p + x` under the conditions of `RemoveImagesKeepsPrefix`. */
  lemma NoImageAtFront(p: string, x: string)
    requires p != [] && !Contains(p, "![")
    requires p[|p| - 1] == '!' ==> x == [] || x[0] != '['
    ensures ImageLinkLength(p + x).None?
  {
    if |p| >= 2 {
      assert !OccursAt(p, "![", 0);
      assert (p + x)[..2] == p[..2];
    } else if |p + x| >= 2 {
      assert (p + x)[0] == p[0] && (p + x)[1] == x[0];
    }
  }

  /** A single-line link is matched from its "![" to its own ")". */
  lemma ImageLinkMatched(alt: string, url: string, q: string)
    requires '\n' !in alt && !Contains(alt, "](")
    requires '\n' !in url && ')' !in url
    ensures ImageLinkLength(ImageLink(alt, url) + q) == Some(|ImageLink(alt, url)|)
  {
    var s := ImageLink(alt, url) + q;
    assert s[2..] == alt + "](" + (url + ")" + q);
    AltEnds(alt, url + ")" + q);
    assert s[|alt| + 4..] == url + ")" + q;
    UrlEnds(url, q);
  }

  /** The alternative text ends at the first "](" on its line. */
  lemma AltEnds(alt: string, rest: string)
    requires '\n' !in alt && !Contains(alt, "](")
    ensures FindOnLine(alt + "](" + rest, "](") == Some(|alt|)
  {
    var t := alt + "](" + rest;
    assert OccursAt(t, "](", |alt|);
    assert t[..|alt|] == alt;
    forall j | 0 <= j < |alt| ensures !OccursAt(t, "](", j) {
      assert t[j..j + 2] == [t[j], t[j + 1]];
      if j < |alt| - 1 {
        assert !OccursAt(alt, "](", j);
        assert alt[j..j + 2] == [alt[j], alt[j + 1]];
        assert t[j] == alt[j] && t[j + 1] == alt[j + 1];
      } else {
        assert t[j + 1] == ']';
      }
    }
    FindOnLineIs(t, "](", |alt|);
  }

  /** The address ends at the first ")" on its line. */
  lemma UrlEnds(url: string, rest: string)
    requires '\n' !in url && ')' !in url
    ensures FindOnLine(url + ")" + rest, ")") == Some(|url|)
  {
    var u := url + ")" + rest;
    assert u[..|url|] == url;
    assert OccursAt(u, ")", |url|);
    forall j | 0 <= j < |url| ensures !OccursAt(u, ")", j) {
      assert url[j] in url;
      assert u[j..j + 1] == [url[j]];
    }
    FindOnLineIs(u, ")", |url|);
  }

  /** An image link on one line, preceded by text in which no "![" starts, is removed and nothing else is. */
  lemma ImageLinkRemoved(p: string, alt: string, url: string, q: string)
    requires !Contains(p, "![")
    requires '\n' !in alt && !Contains(alt, "](")
    requires '\n' !in url && ')' !in url
    ensures RemoveImages(p + ImageLink(alt, url) + q) == p + RemoveImages(q)
  {
    var link := ImageLink(alt, url);
    RemoveImagesKeepsPrefix(p, link + q);
    assert p + link + q == p + (link + q);
    ImageLinkMatched(alt, url, q);
    assert (link + q)[|link|..] == q;
  }

  /** An exclamation mark in the prose before a link does not stop the link's removal. */
  lemma ImageAfterExclamation()
    ensures RemoveImages("Hi! " + ImageLink("c", "d")) == "Hi! "
  {
    assert !Contains("Hi! ", "![") by {
      forall j | 0 <= j <= 2 ensures !OccursAt("Hi! ", "![", j) {
        assert "Hi! "[j + 1] != '[';
      }
    }
    ImageLinkRemoved("Hi! ", "c", "d", "");
    assert "Hi! " + ImageLink("c", "d") + "" == "Hi! " + ImageLink("c", "d");
    assert "Hi! " + RemoveImages("") == "Hi! ";
  }

  // ------------------------------------------------------------------ tags: <[^>]+>

  /** The length of the tag at the front of `s`: '<', at least one character, then the first '>'. */
  function TagLength(s: string): (r: Option<nat>)
    ensures r.Some? ==> 3 <= r.value <= |s|
  {
    if s == [] || s[0] != '<' then None
    else
      var m := IndexOf(s, ">");
      if m >= 2 then Some(m + 1) else None
  }

  /** The characters of `s` whose flag in `keep` is set, in order. */
  ghost function Kept(s: string, keep: seq<bool>): string
    requires |keep| == |s|
    decreases |s|
  {
    if s == [] then [] else (if keep[0] then [s[0]] else []) + Kept(s[1..], keep[1..])
  }

  /** `r` is `s` with some characters deleted and nothing else changed. */
  ghost predicate DeletesFrom(r: string, s: string) {
    exists keep: seq<bool> | |keep| == |s| :: Kept(s, keep) == r
  }

  /** Dropping `n` leading characters is a deletion. */
  lemma {:induction false} KeptDropFront(s: string, n: nat, keep: seq<bool>)
    requires n <= |s| && |keep| == |s| - n
    ensures Kept(s, seq(n, _ => false) + keep) == Kept(s[n..], keep)
    decreases n
  {
    var mask := seq(n, _ => false) + keep;
    if n > 0 {
      assert !mask[0] && mask[1..] == seq(n - 1, _ => false) + keep;
      KeptDropFront(s[1..], n - 1, keep);
      assert s[1..][n - 1..] == s[n..];
    } else {
      assert mask == keep && s[n..] == s;
    }
  }

  /** `re.sub(r'<[^>]+>', '', text)`. Every character of the result comes from the input. */
  function StripTags(s: string): (r: string)
    ensures forall c :: c in r ==> c in s
    ensures s != [] && s[0] == '>' ==> r != [] && r[0] == '>'
    decreases |s|
  {
    if s == [] then []
    else
      match TagLength(s)
      case Some(n) =>
        var r := StripTags(s[n..]);
        assert forall c :: c in s[n..] ==> c in s by {
          forall c | c in s[n..] ensures c in s {
            var k :| 0 <= k < |s[n..]| && s[n..][k] == c;
            assert s[n + k] == c;
          }
        }
        r
      case None =>
        var r := StripTags(s[1..]);
        assert forall c :: c in s[1..] ==> c in s by {
          forall c | c in s[1..] ensures c in s {
            var k :| 0 <= k < |s[1..]| && s[1..][k] == c;
            assert s[1 + k] == c;
          }
        }
        [s[0]] + r
  }

  /** Deleting from a suffix of `s` is deleting from `s`. */
  lemma DeletesFromSuffix(r: string, s: string, n: nat)
    requires n <= |s| && DeletesFrom(r, s[n..])
    ensures DeletesFrom(r, s)
  {
    var keep: seq<bool> :| |keep| == |s[n..]| && Kept(s[n..], keep) == r;
    KeptDropFront(s, n, keep);
    assert |seq(n, _ => false) + keep| == |s|;
  }

  /** Keeping the first character of `s` and deleting from the rest is deleting from `s`. */
  lemma DeletesFromCons(r: string, s: string)
    requires s != [] && DeletesFrom(r, s[1..])
    ensures DeletesFrom([s[0]] + r, s)
  {
    var keep: seq<bool> :| |keep| == |s[1..]| && Kept(s[1..], keep) == r;
    assert ([true] + keep)[1..] == keep;
    assert Kept(s, [true] + keep) == [s[0]] + r;
  }

  /** Removing tags only deletes characters: the result is the input with some characters left out, in order. */
  lemma {:induction false} StripTagsDeletes(s: string)
    ensures DeletesFrom(StripTags(s), s)
    decreases |s|
  {
    if s == [] {
      assert Kept(s, []) == [];
    } else {
      match TagLength(s)
      case Some(n) =>
        StripTagsDeletes(s[n..]);
        DeletesFromSuffix(StripTags(s[n..]), s, n);
      case None =>
        StripTagsDeletes(s[1..]);
        DeletesFromCons(StripTags(s[1..]), s);
    }
  }

  /** No tag is left: every '<' is directly followed by '>' or has no '>' anywhere after it. */
  predicate TagFree(s: string) {
    forall i :: 0 <= i < |s| && s[i] == '<' ==> (i + 1 < |s| && s[i + 1] == '>') || '>' !in s[i + 1..]
  }

  lemma TagFreeCons(c: char, r: string)
    requires TagFree(r)
    requires c == '<' ==> (r != [] && r[0] == '>') || '>' !in r
    ensures TagFree([c] + r)
  {
    var s := [c] + r;
    forall i | 0 <= i < |s| && s[i] == '<'
      ensures (i + 1 < |s| && s[i + 1] == '>') || '>' !in s[i + 1..]
    {
      if i > 0 {
        assert r[i - 1] == '<';
        assert s[i + 1..] == r[i..];
      } else {
        assert s[1..] == r;
      }
    }
  }

  /** Removing the tags leaves none behind. */
  lemma {:induction false} StripTagsTagFree(s: string)
    ensures TagFree(StripTags(s))
    decreases |s|
  {
    if s != [] {
      match TagLength(s)
      case Some(n) =>
        StripTagsTagFree(s[n..]);
      case None =>
        StripTagsTagFree(s[1..]);
        var r := StripTags(s[1..]);
        if s[0] == '<' {
          UnmatchedOpen(s);
        }
        TagFreeCons(s[0], r);
    }
  }

  /** A '<' that opens no tag is followed directly by '>' or by no '>' at all. */
  lemma UnmatchedOpen(s: string)
    requires s != [] && s[0] == '<' && TagLength(s).None?
    ensures (|s| > 1 && s[1] == '>') || '>' !in s[1..]
  {
    var m := IndexOf(s, ">");
    if m == -1 {
      forall k | 0 <= k < |s[1..]| ensures s[1..][k] != '>' {
        assert !OccursAt(s, ">", k + 1);
        assert s[k + 1..k + 2] == [s[k + 1]];
      }
    } else {
      assert m == 1;
    }
  }

  /** Tag-free text is left as it is. */
  lemma {:induction false} TagFreeUnchanged(s: string)
    requires TagFree(s)
    ensures StripTags(s) == s
    decreases |s|
  {
    if s != [] {
      if s[0] == '<' {
        if s[1..] != [] && s[1] == '>' {
          assert OccursAt(s, ">", 1);
          assert !OccursAt(s, ">", 0);
          IndexOfIs(s, ">", 1);
        } else {
          assert '>' !in s[1..];
          forall j | 0 <= j <= |s| - 1 ensures !OccursAt(s, ">", j) {
            if j > 0 {
              assert s[j] == s[1..][j - 1];
            }
          }
        }
      }
      assert TagLength(s).None?;
      assert TagFree(s[1..]) by {
        forall i | 0 <= i < |s[1..]| && s[1..][i] == '<'
          ensures (i + 1 < |s[1..]| && s[1..][i + 1] == '>') || '>' !in s[1..][i + 1..]
        {
          assert s[i + 1] == '<';
          assert s[1..][i + 1..] == s[i + 2..];
        }
      }
      TagFreeUnchanged(s[1..]);
    }
  }

  /** Removing tags twice is removing them once. */
  lemma StripTagsIdempotent(s: string)
    ensures StripTags(StripTags(s)) == StripTags(s)
  {
    StripTagsTagFree(s);
    TagFreeUnchanged(StripTags(s));
  }

  /** A tag at the front is matched up to its own '>'. */
  lemma TagAtFront(body: string, q: string)
    requires body != [] && '>' !in body
    ensures TagLength("<" + body + ">" + q) == Some(|body| + 2)
  {
    var s := "<" + body + ">" + q;
    assert OccursAt(s, ">", |body| + 1);
    forall j | 0 <= j < |body| + 1 ensures !OccursAt(s, ">", j) {
      if j > 0 {
        assert body[j - 1] in body;
        assert s[j] == body[j - 1];
        assert s[j..j + 1] == [body[j - 1]];
      } else {
        assert s[0..1] == "<";
      }
    }
    IndexOfIs(s, ">", |body| + 1);
  }

  /** Text without '<' is copied unchanged. */
  lemma {:induction false} StripTagsKeepsPrefix(p: string, x: string)
    requires '<' !in p
    ensures StripTags(p + x) == p + StripTags(x)
    decreases |p|
  {
    if p == [] {
      assert p + x == x;
    } else {
      assert p[0] in p;
      assert (p + x)[0] == p[0];
      assert (p + x)[1..] == p[1..] + x;
      assert '<' !in p[1..] by {
        forall c | c in p[1..] ensures c in p {
          var k :| 0 <= k < |p[1..]| && p[1..][k] == c;
          assert p[k + 1] == c;
        }
      }
      StripTagsKeepsPrefix(p[1..], x);
    }
  }

  /** A tag preceded by text without '<' is removed and nothing else is. */
  lemma TagRemoved(p: string, body: string, q: string)
    requires '<' !in p
    requires body != [] && '>' !in body
    ensures StripTags(p + "<" + body + ">" + q) == p + StripTags(q)
  {
    var tag := "<" + body + ">";
    StripTagsKeepsPrefix(p, tag + q);
    assert p + "<" + body + ">" + q == p + (tag + q);
    TagAtFront(body, q);
    assert (tag + q)[|tag|..] == q;
  }

  // ------------------------------------------------------------------ newlines: \n{3,}

  /** The number of '\n' characters at the front of `s`. */
  function NewlineRun(s: string): (n: nat)
    ensures n <= |s|
    ensures forall i :: 0 <= i < n ==> s[i] == '\n'
    ensures n < |s| ==> s[n] != '\n'
    decreases |s|
  {
    if s != [] && s[0] == '\n' then 1 + NewlineRun(s[1..]) else 0
  }

  /** `re.sub(r'\n{3,}', '\n\n', text)`: a run of three or more newlines becomes two. */
  function CollapseNewlines(s: string): string
    decreases |s|
  {
    if s == [] then []
    else
      var n := NewlineRun(s);
      if n >= 3 then "\n\n" + CollapseNewlines(s[n..])
      else [s[0]] + CollapseNewlines(s[1..])
  }

  /** Never three newlines in a row. */
  predicate NoTripleNewline(s: string)
    decreases |s|
  {
    s == [] || (NewlineRun(s) < 3 && NoTripleNewline(s[1..]))
  }

  /** The recursive definition says exactly that "\n\n\n" does not occur. */
  lemma {:induction false} NoTripleNewlineMeans(s: string)
    ensures NoTripleNewline(s) <==> !Contains(s, "\n\n\n")
    decreases |s|
  {
    if s == [] {
      assert !OccursAt(s, "\n\n\n", 0);
    } else {
      NoTripleNewlineMeans(s[1..]);
      ContainsCons(s, "\n\n\n");
      if NewlineRun(s) >= 3 {
        assert s[..3] == "\n\n\n";
      }
    }
  }

  /** The run at the front of the result is that of the input, cut down to two. */
  lemma {:induction false} CollapseRun(s: string)
    ensures NewlineRun(CollapseNewlines(s)) == if NewlineRun(s) >= 3 then 2 else NewlineRun(s)
    decreases |s|
  {
    if s != [] {
      var n := NewlineRun(s);
      if n >= 3 {
        var rest := s[n..];
        CollapseRun(rest);
        assert NewlineRun(rest) == 0;
        var r := CollapseNewlines(s);
        assert r == "\n\n" + CollapseNewlines(rest);
        assert r[1..][1..] == CollapseNewlines(rest);
      } else if s[0] == '\n' {
        CollapseRun(s[1..]);
      }
    }
  }

  /** After the collapse there are never three newlines in a row. */
  lemma {:induction false} CollapseNoTriple(s: string)
    ensures NoTripleNewline(CollapseNewlines(s))
    decreases |s|
  {
    if s != [] {
      var n := NewlineRun(s);
      if n >= 3 {
        var rest := s[n..];
        CollapseNoTriple(rest);
        CollapseRun(rest);
        var c := CollapseNewlines(rest);
        var r := "\n\n" + c;
        assert r[1..] == "\n" + c;
        assert r[1..][1..] == c;
      } else {
        CollapseNoTriple(s[1..]);
        CollapseRun(s[1..]);
      }
    }
  }

  /** Text that never has three newlines in a row is left as it is: collapsing is idempotent. */
  lemma {:induction false} CollapseUnchanged(s: string)
    requires NoTripleNewline(s)
    ensures CollapseNewlines(s) == s
    decreases |s|
  {
    if s != [] {
      CollapseUnchanged(s[1..]);
    }
  }

  /** `s` without its newlines. */
  function WithoutNewlines(s: string): string
    decreases |s|
  {
    if s == [] then [] else (if s[0] == '\n' then [] else [s[0]]) + WithoutNewlines(s[1..])
  }

  lemma {:induction false} WithoutNewlinesRun(s: string, n: nat)
    requires n <= |s| && forall i :: 0 <= i < n ==> s[i] == '\n'
    ensures WithoutNewlines(s) == WithoutNewlines(s[n..])
    decreases n
  {
    if n > 0 {
      WithoutNewlinesRun(s[1..], n - 1);
      assert s[1..][n - 1..] == s[n..];
    }
  }

  /** Only newlines change: all other characters are kept, in order. */
  lemma {:induction false} CollapseKeepsText(s: string)
    ensures WithoutNewlines(CollapseNewlines(s)) == WithoutNewlines(s)
    decreases |s|
  {
    if s != [] {
      var n := NewlineRun(s);
      if n >= 3 {
        CollapseKeepsText(s[n..]);
        WithoutNewlinesRun(s, n);
        var r := "\n\n" + CollapseNewlines(s[n..]);
        WithoutNewlinesRun(r, 2);
        assert r[2..] == CollapseNewlines(s[n..]);
      } else {
        CollapseKeepsText(s[1..]);
      }
    }
  }

  // ------------------------------------------------------------------ escapes: \# and \-

  /** `text.replace('\\' + c, c)`: left to right, non-overlapping. */
  function Unescape(s: string, c: char): string
    decreases |s|
  {
    if s == [] then []
    else if |s| >= 2 && s[0] == '\\' && s[1] == c then [c] + Unescape(s[2..], c)
    else [s[0]] + Unescape(s[1..], c)
  }

  /** Puts a backslash before every `c`. */
  function Escape(t: string, c: char): (r: string)
    requires c != '\\'
    ensures r != [] ==> r[0] != c
    ensures t != [] <==> r != []
    decreases |t|
  {
    if t == [] then []
    else if t[0] == c then "\\" + [c] + Escape(t[1..], c)
    else [t[0]] + Escape(t[1..], c)
  }

  /** Undoing the escapes of escaped text gives the text back. */
  lemma {:induction false} UnescapeEscape(t: string, c: char)
    requires c != '\\'
    ensures Unescape(Escape(t, c), c) == t
    decreases |t|
  {
    if t != [] {
      UnescapeEscape(t[1..], c);
      var e := Escape(t[1..], c);
      if t[0] == c {
        var s := "\\" + [c] + e;
        assert s[2..] == e;
      } else {
        var s := [t[0]] + e;
        assert s[1..] == e;
        assert !(|s| >= 2 && s[0] == '\\' && s[1] == c);
      }
    }
  }

  /** For an escaped character other than '\n', the leading run of newlines is unchanged. */
  lemma {:induction false} UnescapeRun(s: string, c: char)
    requires c != '\n'
    ensures NewlineRun(Unescape(s, c)) == NewlineRun(s)
    decreases |s|
  {
    if s != [] && !(|s| >= 2 && s[0] == '\\' && s[1] == c) {
      UnescapeRun(s[1..], c);
    }
  }

  /** Undoing an escape other than of '\n' never creates three newlines in a row. */
  lemma {:induction false} UnescapeNoTriple(s: string, c: char)
    requires c != '\n' && NoTripleNewline(s)
    ensures NoTripleNewline(Unescape(s, c))
    decreases |s|
  {
    if s != [] {
      if |s| >= 2 && s[0] == '\\' && s[1] == c {
        assert NoTripleNewline(s[1..][1..]);
        assert s[1..][1..] == s[2..];
        UnescapeNoTriple(s[2..], c);
      } else {
        UnescapeNoTriple(s[1..], c);
        UnescapeRun(s, c);
      }
    }
  }

  // ------------------------------------------------------------------ the whole cleaning

  /** `clean_markdown`. */
  function Clean(text: string): string {
    var noImages := RemoveImages(text);
    var noTags := StripTags(noImages);
    var collapsed := CollapseNewlines(noTags);
    PyStrip(Unescape(Unescape(collapsed, '#'), '-'))
  }

  /** The cleaned text neither starts nor ends with whitespace and never has three newlines in a row. */
  lemma CleanShape(text: string)
    ensures var r := Clean(text);
            (r != [] ==> !IsPyWhitespace(r[0]) && !IsPyWhitespace(r[|r| - 1]))
            && NoTripleNewline(r)
  {
    var collapsed := CollapseNewlines(StripTags(RemoveImages(text)));
    CollapseNoTriple(StripTags(RemoveImages(text)));
    UnescapeNoTriple(collapsed, '#');
    var u := Unescape(Unescape(collapsed, '#'), '-');
    UnescapeNoTriple(Unescape(collapsed, '#'), '-');
    NoTripleNewlineMeans(u);
    var r := PyStrip(u);
    InfixAvoids(r, u, "\n\n\n");
    NoTripleNewlineMeans(r);
  }

  /** Cleaning text that is already clean changes nothing. */
  lemma CleanPlainText(text: string)
    requires !Contains(text, "![") && '<' !in text && '\\' !in text
    requires NoTripleNewline(text)
    requires text != [] ==> !IsPyWhitespace(text[0]) && !IsPyWhitespace(text[|text| - 1])
    ensures Clean(text) == text
  {
    RemoveImagesKeepsPrefix(text, []);
    assert text + [] == text;
    assert TagFree(text);
    TagFreeUnchanged(text);
    CollapseUnchanged(text);
    UnescapeNoBackslash(text, '#');
    UnescapeNoBackslash(text, '-');
    StripUnchanged(text);
  }

  lemma {:induction false} UnescapeNoBackslash(s: string, c: char)
    requires '\\' !in s
    ensures Unescape(s, c) == s
    decreases |s|
  {
    if s != [] {
      assert s[0] in s;
      assert '\\' !in s[1..] by {
        forall x | x in s[1..] ensures x in s {
          var k :| 0 <= k < |s[1..]| && s[1..][k] == x;
          assert s[k + 1] == x;
        }
      }
      UnescapeNoBackslash(s[1..], c);
    }
  }

  lemma StripUnchanged(s: string)
    requires s != [] ==> !IsPyWhitespace(s[0]) && !IsPyWhitespace(s[|s| - 1])
    ensures PyStrip(s) == s
  {
  }
}
