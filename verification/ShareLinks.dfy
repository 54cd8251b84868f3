/** Link files: flushing `name.marcfs-link` fills it with the public links of `name`. */
module ShareLinks {
  import opened Bytes
  import opened PartNames
  import opened Layout

  const LINK := ".marcfs-link"
  const PUBLICLINK_ENDPOINT := "https://cloud.mail.ru/public"

  /** `.marcfs-link` stands at position `p`, behind at least one character. */
  predicate LinkAt(path: string, p: nat) {
    0 < p && p + |LINK| <= |path| && path[p..p + |LINK|] == LINK
  }

  /** The matcher's search: `(.+)` is greedy, so the last place is tried first; 0 when there is none. */
  function LastLink(path: string, p: nat): (q: nat)
    requires p <= |path|
    ensures q <= p && (q > 0 ==> LinkAt(path, q))
    ensures forall r :: q < r <= p ==> !LinkAt(path, r)
  {
    if p == 0 || LinkAt(path, p) then p else LastLink(path, p - 1)
  }

  /** The file a link file stands for, if the whole path matches the regular expression. */
  function LinkTarget(path: string): Option<string> {
    var p := LastLink(path, |path|);
    if p > 0 && NoLineEnd(path) then Some(path[..p]) else None
  }

  /** What is captured is what stands before the last `.marcfs-link`, be it in the name or in a directory. */
  lemma LinkTargetIff(path: string, orig: string)
    ensures LinkTarget(path) == Some(orig) <==>
            && '\n' !in path && '\r' !in path
            && orig != [] && orig + ".marcfs-link" <= path
            && forall other: string :: other + ".marcfs-link" <= path ==> |other| <= |orig|
  {
    hide LinkAt, NoLineEnd;
    NoLineEndIff(path);
    LastIsLongest(path);
    hide LastLink;
    var p := LastLink(path, |path|);
    assert p > 0 ==> path[..p] + LINK <= path;
    if orig != [] && orig + LINK <= path && forall other: string :: other + LINK <= path ==> |other| <= |orig| {
      assert |path[..p]| == p == |orig|;
      PrefixOf(path, orig, LINK);
    }
  }

  lemma PrefixOf(path: string, a: string, b: string)
    requires a + b <= path
    ensures path[..|a|] == a
  {
    assert (a + b)[..|a|] == a;
  }

  lemma LastIsLongest(path: string)
    ensures var p := LastLink(path, |path|);
            && (p > 0 ==> path[..p] + LINK <= path)
            && forall other: string :: other + LINK <= path ==> |other| <= p
  {
    hide LinkAt;
    var p := LastLink(path, |path|);
    LinkAtIff(path, path[..p]);
    forall other: string | other + LINK <= path
      ensures |other| <= p
    {
      LinkAtIff(path, other);
    }
  }

  lemma NoLineEndIff(s: string)
    ensures NoLineEnd(s) <==> '\n' !in s && '\r' !in s
  {
    assert NoLineEnd(s) <==> forall c :: c in s ==> AnyChar(c);
  }

  lemma LinkAtIff(path: string, orig: string)
    ensures orig != [] && orig + LINK <= path <==> LinkAt(path, |orig|) && path[..|orig|] == orig
  {
    if LinkAt(path, |orig|) && path[..|orig|] == orig {
      assert path[..|orig| + |LINK|] == orig + LINK;
    }
    if orig + LINK <= path {
      assert path[..|orig| + |LINK|][..|orig|] == path[..|orig|];
      assert path[..|orig| + |LINK|][|orig|..] == path[|orig|..|orig| + |LINK|];
    }
  }

  /** A path as the bytes a link file holds; a character is a byte. */
  function AsBytes(s: string): Content {
    seq(|s|, i requires 0 <= i < |s| => (s[i] as int % 0x100) as Byte)
  }

  /** The line for one object: what comes before the call to the cloud, and what comes after. */
  function LinkHead(key: string): Content {
    AsBytes(key + ": ")
  }

  function LinkLine(key: string, links: string -> Content): Content {
    LinkHead(key) + (AsBytes(PUBLICLINK_ENDPOINT + "/") + links(key) + AsBytes("\n"))
  }

  /** One line for each of the first `n` objects of a file. */
  function LinkLines(path: string, size: nat, n: nat, links: string -> Content, m: nat): Content {
    if n == 0 then []
    else LinkLines(path, size, n - 1, links, m) + LinkLine(KeyAt(path, size, n - 1, m), links)
  }

  // ---- what is to be read there ----

  /** The lines of a text, each without the line feed that ends it; what follows the last one is not a line. */
  function Lines(text: Content): seq<Content> {
    if 10 !in text then [] else [text[..FirstFeed(text)]] + Lines(text[FirstFeed(text) + 1..])
  }

  function FirstFeed(text: Content): (i: nat)
    requires 10 in text
    ensures i < |text| && text[i] == 10 && 10 !in text[..i]
  {
    if text[0] == 10 then 0
    else
      assert text == text[..1] + text[1..];
      var i := FirstFeed(text[1..]) + 1;
      assert text[..i] == text[..1] + text[1..][..i - 1];
      i
  }

  lemma FirstLine(line: Content, rest: Content)
    requires 10 !in line
    ensures Lines(line + [10] + rest) == [line] + Lines(rest)
  {
    var text := line + [10] + rest;
    assert text[|line|] == 10;
    assert forall j :: 0 <= j < |line| ==> text[j] == line[j];
    assert FirstFeed(text) == |line|;
    assert text[..|line|] == line && text[|line| + 1..] == rest;
  }

  lemma CutFirst(text: Content) returns (first: Content, rest: Content)
    requires text != [] && text[|text| - 1] == 10
    ensures text == first + [10] + rest && 10 !in first && (rest == [] || rest[|rest| - 1] == 10)
  {
    var i := FirstFeed(text);
    first, rest := text[..i], text[i + 1..];
  }

  lemma {:induction false} LinesSnoc(text: Content, line: Content)
    requires 10 !in line && (text == [] || text[|text| - 1] == 10)
    ensures Lines(text + (line + [10])) == Lines(text) + [line]
    decreases |text|
  {
    hide Lines;
    NoLines();
    if text == [] {
      FirstLine(line, []);
      assert text + (line + [10]) == line + [10] + [];
    } else {
      var first, rest := CutFirst(text);
      FirstLine(first, rest);
      FirstLine(first, rest + (line + [10]));
      assert text + (line + [10]) == first + [10] + (rest + (line + [10]));
      LinesSnoc(rest, line);
    }
  }

  lemma NoLines()
    ensures Lines([]) == []
  {
  }

  /** The characters of `s`, all seven-bit ones, as bytes from position `at` on. */
  predicate Spells(text: Content, at: nat, s: string) {
    at + |s| <= |text| && forall j :: 0 <= j < |s| ==> text[at + j] as int == s[j] as int
  }

  /** The line says which object the link is for, and then the link. */
  predicate NamesObject(line: Content, key: string, link: Content) {
    var head := key + ": https://cloud.mail.ru/public/";
    Spells(line, 0, head) && line[|head|..] == link
  }

  predicate SevenBit(s: string) {
    forall i :: 0 <= i < |s| ==> s[i] as int < 0x80
  }

  lemma SpelledOut(s: string)
    requires SevenBit(s)
    ensures Spells(AsBytes(s), 0, s) && |AsBytes(s)| == |s|
    ensures '\n' !in s ==> 10 !in AsBytes(s)
  {
  }

  lemma SpelledTwice(a: Content, b: Content, s: string, t: string)
    requires |a| == |s| && |b| == |t| && Spells(a, 0, s) && Spells(b, 0, t)
    ensures |a + b| == |s + t| && Spells(a + b, 0, s + t)
  {
  }

  lemma SpelledFront(a: Content, b: Content, s: string)
    requires |a| == |s| && Spells(a, 0, s)
    ensures Spells(a + b, 0, s) && (a + b)[|s|..] == b
  {
  }

  lemma HeadIsPlain(key: string)
    requires SevenBit(key) && '\n' !in key
    ensures SevenBit(key + ": ") && '\n' !in key + ": "
    ensures SevenBit(PUBLICLINK_ENDPOINT + "/") && '\n' !in PUBLICLINK_ENDPOINT + "/"
  {
  }

  lemma NotInBoth(a: Content, b: Content, c: Content)
    requires 10 !in a && 10 !in b && 10 !in c
    ensures 10 !in a + b + c
  {
  }

  /** A line of the text, without its line feed. */
  lemma LineIs(key: string, links: string -> Content) returns (line: Content)
    requires SevenBit(key) && '\n' !in key && 10 !in links(key)
    ensures LinkLine(key, links) == line + [10] && 10 !in line && NamesObject(line, key, links(key))
  {
    hide AsBytes, Spells, SevenBit;
    HeadIsPlain(key);
    assert key + ": " + (PUBLICLINK_ENDPOINT + "/") == key + ": https://cloud.mail.ru/public/";
    OneFeed();
    line := LineOf(key + ": ", PUBLICLINK_ENDPOINT + "/", links(key));
  }

  lemma LineOf(front: string, endpoint: string, link: Content) returns (line: Content)
    requires SevenBit(front) && '\n' !in front && SevenBit(endpoint) && '\n' !in endpoint && 10 !in link
    ensures AsBytes(front) + (AsBytes(endpoint) + link + [10]) == line + [10] && 10 !in line
    ensures Spells(line, 0, front + endpoint) && line[|front + endpoint|..] == link
  {
    hide AsBytes, Spells, SevenBit;
    SpelledOut(front);
    SpelledOut(endpoint);
    NotInBoth(AsBytes(front), AsBytes(endpoint), link);
    SpelledTwice(AsBytes(front), AsBytes(endpoint), front, endpoint);
    SpelledFront(AsBytes(front) + AsBytes(endpoint), link, front + endpoint);
    line := AsBytes(front) + AsBytes(endpoint) + link;
    assert AsBytes(front) + (AsBytes(endpoint) + link + [10]) == line + [10];
  }

  lemma OneFeed()
    ensures AsBytes("\n") == [10]
  {
  }

  lemma PartKeyPlain(path: string, size: nat, i: nat, m: nat)
    requires SevenBit(path) && '\n' !in path
    ensures SevenBit(KeyAt(path, size, i, m)) && '\n' !in KeyAt(path, size, i, m)
  {
    if size > m {
      ValueOfDecimal(i);
      var digits, key := Decimal(i), PartName(path, i);
      hide Decimal;
      forall j | 0 <= j < |key|
        ensures key[j] as int < 0x80 && key[j] != '\n'
      {
        if |path| + |SUFFIX| <= j {
          assert key[j] == digits[j - |path| - |SUFFIX|];
        } else if |path| <= j {
          assert key[j] == SUFFIX[j - |path|];
        }
      }
    }
  }

  /** The text has one line for each of the first `n` objects, in order, and nothing behind the last line. */
  lemma {:induction false} LinkLinesAre(path: string, size: nat, n: nat, links: string -> Content, m: nat)
    requires SevenBit(path) && '\n' !in path
    requires forall i :: 0 <= i < n ==> 10 !in links(KeyAt(path, size, i, m))
    ensures var text := LinkLines(path, size, n, links, m);
            && (text == [] || text[|text| - 1] == 10)
            && |Lines(text)| == n
            && forall i :: 0 <= i < n ==>
                 NamesObject(Lines(text)[i], KeyAt(path, size, i, m), links(KeyAt(path, size, i, m)))
  {
    hide KeyAt, LinkLine, NamesObject, Lines, SevenBit;
    if n == 0 {
      NoLines();
    } else {
      LinkLinesAre(path, size, n - 1, links, m);
      PartKeyPlain(path, size, n - 1, m);
      var text := LinkLines(path, size, n - 1, links, m);
      var line := LineIs(KeyAt(path, size, n - 1, m), links);
      LinesSnoc(text, line);
    }
  }

  /** Half a line for a file that is not there. */
  lemma HalfLine(path: string)
    requires SevenBit(path)
    ensures |LinkHead(path)| == |path| + 2 && Spells(LinkHead(path), 0, path + ": ")
  {
    SpelledOut(path + ": ");
  }
}
