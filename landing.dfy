/**
 * The page served on "/": an HTML body with one <img> tag that points the
 * browser at the stream on /img and sizes it to the capture resolution.
 */
module Landing {
  import opened Wrappers
  import opened Decimal

  // The source's adjacent literals, joined, and cut where the tag's attributes begin and end.
  const Prelude := "<html>    <body>        <h1>Camera streaming</h1>        <img "
  const Closing := ">    </body></html>"
  /** The HTML before the advertised address: ... <img src='http:// */
  const PageHead := Prelude + "src='" + "http://"
  /** Between port and width: /img'/ width=' */
  const WidthLead := "/img" + "'" + "/ " + "width='"
  const HeightLead := "' height='"
  /** After the height: '>    </body></html> */
  const PageTail := "'" + Closing

  /** The body of the "/" response for the advertised address, port and capture size. */
  function LandingPage(ip: string, port: int, width: int, height: int): string {
    PageHead + ip + ":" + IntToDec(port) + WidthLead + IntToDec(width)
      + HeightLead + IntToDec(height) + PageTail
  }

  /** The stream URL of the <img> tag. */
  function ImgUrl(ip: string, port: int): string {
    "http://" + ip + ":" + IntToDec(port) + "/img"
  }

  /** The values a landing page carries. */
  datatype Fields = Fields(ip: string, port: int, width: int, height: int)

  /** Whether sub occurs in s at offset i. */
  predicate OccursAt(s: string, sub: string, i: nat) {
    i + |sub| <= |s| && s[i..i + |sub|] == sub
  }

  /** Splits s at the first occurrence of c. */
  function SplitAt(s: string, c: char): (r: Option<(string, string)>)
    ensures r.Some? ==> c !in r.value.0 && s == r.value.0 + [c] + r.value.1
    ensures r.None? ==> c !in s
  {
    if s == [] then None
    else if s[0] == c then Some(([], s[1..]))
    else
      match SplitAt(s[1..], c)
      case None => None
      case Some((before, after)) => Some(([s[0]] + before, after))
  }

  /** What follows lit in s, when s starts with lit. */
  function Expect(s: string, lit: string): (r: Option<string>)
    ensures r.Some? ==> s == lit + r.value
  {
    if |lit| <= |s| && s[..|lit|] == lit then Some(s[|lit|..]) else None
  }

  /** Reads a number that follows lead. */
  function ReadField(s: string, lead: string): Option<(int, string)> {
    match Expect(s, lead)
    case None => None
    case Some(r) => ReadInt(r)
  }

  /** Reads port, widthLead, width, heightLead, height and then exactly tail. */
  function ReadPortAndSize(s: string, widthLead: string, heightLead: string, tail: string)
    : Option<(int, int, int)>
  {
    match ReadInt(s)
    case None => None
    case Some((port, r1)) =>
      match ReadField(r1, widthLead)
      case None => None
      case Some((width, r2)) =>
        match ReadField(r2, heightLead)
        case None => None
        case Some((height, r3)) =>
          if r3 == tail then Some((port, width, height)) else None
  }

  /**
   * A reader for pages of the landing page's shape, given its fixed pieces:
   * head, address up to the first colon, then port and size.
   */
  function ReadTemplate(page: string, head: string, widthLead: string, heightLead: string,
                        tail: string): Option<Fields>
  {
    match Expect(page, head)
    case None => None
    case Some(r1) =>
      match SplitAt(r1, ':')
      case None => None
      case Some((ip, r2)) =>
        match ReadPortAndSize(r2, widthLead, heightLead, tail)
        case None => None
        case Some((port, width, height)) => Some(Fields(ip, port, width, height))
  }

  /** A reader for landing pages: recovers address, port, width and height. */
  function ReadLanding(page: string): Option<Fields> {
    ReadTemplate(page, PageHead, WidthLead, HeightLead, PageTail)
  }

  lemma {:induction false} SplitAtFirst(a: string, c: char, b: string)
    requires c !in a
    ensures SplitAt(a + [c] + b, c) == Some((a, b))
    decreases |a|
  {
    var s := a + [c] + b;
    if a == [] {
      assert s[1..] == b;
    } else {
      assert s[0] == a[0] && s[1..] == a[1..] + [c] + b;
      SplitAtFirst(a[1..], c, b);
      assert [a[0]] + a[1..] == a;
    }
  }

  lemma ExpectLead(lit: string, rest: string)
    ensures Expect(lit + rest, lit) == Some(rest)
  {
    assert (lit + rest)[..|lit|] == lit && (lit + rest)[|lit|..] == rest;
  }

  /** A separator that ends a decimal number in front of it. */
  predicate NonDigitLead(s: string) {
    |s| > 0 && !IsDigit(s[0])
  }

  lemma FieldRoundTrip(lead: string, i: int, rest: string)
    requires rest == [] || !IsDigit(rest[0])
    ensures ReadField(lead + (IntToDec(i) + rest), lead) == Some((i, rest))
  {
    ExpectLead(lead, IntToDec(i) + rest);
    ReadIntDec(i, rest);
  }

  lemma PortAndSizeRoundTrip(port: int, widthLead: string, width: int, heightLead: string, height: int,
                             tail: string)
    requires NonDigitLead(widthLead) && NonDigitLead(heightLead) && (tail == [] || NonDigitLead(tail))
    ensures ReadPortAndSize(IntToDec(port) + (widthLead + (IntToDec(width) + (heightLead + (IntToDec(height) + tail)))),
                            widthLead, heightLead, tail)
            == Some((port, width, height))
  {
    var r2 := heightLead + (IntToDec(height) + tail);
    var r1 := widthLead + (IntToDec(width) + r2);
    assert r1[0] == widthLead[0] && r2[0] == heightLead[0];
    ReadIntDec(port, r1);
    FieldRoundTrip(widthLead, width, r2);
    FieldRoundTrip(heightLead, height, tail);
  }

  lemma TemplateRoundTrip(head: string, ip: string, port: int, widthLead: string, width: int,
                          heightLead: string, height: int, tail: string)
    requires ':' !in ip
    requires NonDigitLead(widthLead) && NonDigitLead(heightLead) && (tail == [] || NonDigitLead(tail))
    ensures ReadTemplate(head + ip + ":" + IntToDec(port) + widthLead + IntToDec(width)
                           + heightLead + IntToDec(height) + tail,
                         head, widthLead, heightLead, tail)
            == Some(Fields(ip, port, width, height))
  {
    var pd, wd, hd := IntToDec(port), IntToDec(width), IntToDec(height);
    var r2 := pd + (widthLead + (wd + (heightLead + (hd + tail))));
    var r1 := ip + [':'] + r2;
    assert head + ip + ":" + pd + widthLead + wd + heightLead + hd + tail == head + r1;
    ExpectLead(head, r1);
    SplitAtFirst(ip, ':', r2);
    PortAndSizeRoundTrip(port, widthLead, width, heightLead, height, tail);
  }

  /**
   * A landing page gives back the address, port, width and height it was
   * built from, so its <img> tag carries exactly the configured values; the
   * address must not contain a colon, which a dotted quad never does.
   */
  lemma LandingRoundTrip(ip: string, port: int, width: int, height: int)
    requires ':' !in ip
    ensures ReadLanding(LandingPage(ip, port, width, height)) == Some(Fields(ip, port, width, height))
  {
    assert WidthLead[0] == '/' && HeightLead[0] == '\'' && PageTail[0] == '\'';
    TemplateRoundTrip(PageHead, ip, port, WidthLead, width, HeightLead, height, PageTail);
  }

  lemma TemplateTag(pre: string, sl: string, sc: string, ip: string, colon: string, pd: string,
                    im: string, q: string, sp: string, wl: string, wd: string, hl: string, hd: string,
                    closing: string)
    ensures var page := pre + sl + sc + ip + colon + pd + (im + q + sp + wl) + wd + hl + hd + (q + closing);
            var src := sl + (sc + ip + colon + pd + im) + q;
            var size := wl + wd + hl + hd + q;
      && OccursAt(page, src, |pre|)
      && OccursAt(page, size, |pre| + |src| + |sp|)
  {
    var page := pre + sl + sc + ip + colon + pd + (im + q + sp + wl) + wd + hl + hd + (q + closing);
    var src := sl + (sc + ip + colon + pd + im) + q;
    var size := wl + wd + hl + hd + q;
    assert page == pre + src + sp + size + closing;
    assert page[|pre|..|pre| + |src|] == src;
    assert page[|pre| + |src| + |sp|..|pre| + |src| + |sp| + |size|] == size;
  }

  /** The page holds src='<stream URL>' and then width='<w>' height='<h>'. */
  lemma LandingImgTag(ip: string, port: int, width: int, height: int)
    ensures var page := LandingPage(ip, port, width, height);
            var src := "src='" + ImgUrl(ip, port) + "'";
            var size := "width='" + IntToDec(width) + HeightLead + IntToDec(height) + "'";
      exists i: nat, j: nat :: i + |src| <= j && OccursAt(page, src, i) && OccursAt(page, size, j)
  {
    var src := "src='" + ImgUrl(ip, port) + "'";
    TemplateTag(Prelude, "src='", "http://", ip, ":", IntToDec(port), "/img", "'", "/ ", "width='",
                IntToDec(width), HeightLead, IntToDec(height), Closing);
    var page := LandingPage(ip, port, width, height);
    var size := "width='" + IntToDec(width) + HeightLead + IntToDec(height) + "'";
    assert page == Prelude + "src='" + "http://" + ip + ":" + IntToDec(port) + ("/img" + "'" + "/ " + "width='")
                   + IntToDec(width) + HeightLead + IntToDec(height) + ("'" + Closing);
    var i: nat, j: nat := |Prelude|, |Prelude| + |src| + |"/ "|;
    assert i + |src| <= j && OccursAt(page, src, i) && OccursAt(page, size, j);
  }

  lemma SampleDecimals()
    ensures IntToDec(9000) == "9000" && IntToDec(320) == "320" && IntToDec(240) == "240"
  {
    assert NatToDec(9) == "9" && NatToDec(90) == "90" && NatToDec(900) == "900";
    assert NatToDec(3) == "3" && NatToDec(32) == "32";
    assert NatToDec(2) == "2" && NatToDec(24) == "24";
  }

  /** The page for port 9000 and a 320x240 capture. */
  lemma Landing9000(ip: string)
    ensures var page := LandingPage(ip, 9000, 320, 240);
      exists i: nat, j: nat :: i < j && OccursAt(page, "src='" + ImgUrl(ip, 9000) + "'", i)
                                   && OccursAt(page, "width='320' height='240'", j)
  {
    SampleDecimals();
    assert "width='" + IntToDec(320) + HeightLead + IntToDec(240) + "'" == "width='320' height='240'";
    LandingImgTag(ip, 9000, 320, 240);
  }
}
