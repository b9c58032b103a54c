/**
 * The wire format of the /img route: the fixed response header list and the
 * framing of one JPEG image as a part of a multipart/x-mixed-replace body.
 * Wire text is a string whose characters stand for the octets of the C++
 * std::string that the handler hands to the response object.
 */
module Multipart {
  import opened Wrappers
  import opened Decimal

  /** The header lines the /img handler pushes onto the response, in push order. */
  const ImgHeaders: seq<string> := [
    "Connection: close",
    "Max-Age: 0",
    "Expires: 0",
    "Cache-Control: no-cache, private",
    "Pragma: no-cache",
    "Content-Type: multipart/x-mixed-replace;boundary=--boundary"
  ]

  /** Everything a part carries before the decimal Content-Length value. */
  const PartLead := "--boundary\r\nContent-Type: image/jpeg\r\nContent-Length: "

  /** The end of the part's header block; the image bytes follow it directly. */
  const HeaderEnd := "\r\n\r\n"

  /** The message sent for one encoded image. No line terminator follows the image. */
  function Part(image: string): string {
    PartLead + NatToDec(|image|) + HeaderEnd + image
  }

  /** The body a client receives once the given images have been sent, in order. */
  function Body(images: seq<string>): string {
    if images == [] then [] else Part(images[0]) + Body(images[1..])
  }

  /**
   * A reader for one part: checks the fixed lead, reads the Content-Length
   * value, checks the blank line, then takes exactly that many octets.
   * Returns the image and what follows it.
   */
  function ReadPart(s: string): (r: Option<(string, string)>)
    ensures r.Some? ==> |r.value.1| < |s|
  {
    if |s| < |PartLead| || s[..|PartLead|] != PartLead then None
    else
      match ReadNat(s[|PartLead|..])
      case None => None
      case Some((n, rest)) =>
        if |rest| < |HeaderEnd| || rest[..|HeaderEnd|] != HeaderEnd || |rest| - |HeaderEnd| < n then None
        else Some((rest[|HeaderEnd|..|HeaderEnd| + n], rest[|HeaderEnd| + n..]))
  }

  /** A reader for a whole body: a sequence of parts and nothing else. */
  function ReadBody(s: string): Option<seq<string>>
    decreases |s|
  {
    if s == [] then Some([])
    else
      match ReadPart(s)
      case None => None
      case Some((image, rest)) =>
        match ReadBody(rest)
        case None => None
        case Some(images) => Some([image] + images)
  }

  /** The Content-Length field of a part reads back as the exact length of its image. */
  lemma {:induction false} PartContentLength(image: string)
    ensures ReadNat(Part(image)[|PartLead|..]) == Some((|image|, HeaderEnd + image))
  {
    assert Part(image)[|PartLead|..] == NatToDec(|image|) + (HeaderEnd + image);
    ReadNatDec(|image|, HeaderEnd + image);
  }

  /** A part reads back as its image, whatever follows it on the wire. */
  lemma {:induction false} ReadPartOfPart(image: string, rest: string)
    ensures ReadPart(Part(image) + rest) == Some((image, rest))
  {
    var s := Part(image) + rest;
    var d := NatToDec(|image|);
    assert s == PartLead + (d + (HeaderEnd + image + rest));
    assert s[..|PartLead|] == PartLead;
    assert s[|PartLead|..] == d + (HeaderEnd + image + rest);
    ReadNatDec(|image|, HeaderEnd + image + rest);
    var after := HeaderEnd + image + rest;
    assert after[..|HeaderEnd|] == HeaderEnd;
    assert after[|HeaderEnd|..|HeaderEnd| + |image|] == image;
    assert after[|HeaderEnd| + |image|..] == rest;
  }

  /**
   * Although no line terminator separates one part from the next, the body
   * stays self-delimiting: read by Content-Length it gives back every image,
   * in the order sent.
   */
  lemma {:induction false} ReadBodyOfBody(images: seq<string>)
    ensures ReadBody(Body(images)) == Some(images)
    decreases |images|
  {
    if images != [] {
      var rest := Body(images[1..]);
      var s := Part(images[0]) + rest;
      assert Body(images) == s;
      ReadPartOfPart(images[0], rest);
      ReadBodyOfBody(images[1..]);
      assert |s| >= |PartLead| > 0;
      assert [images[0]] + images[1..] == images;
    }
  }
}
