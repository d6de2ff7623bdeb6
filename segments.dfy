/** `buildSegments` (index.js:558-583): the OneBot message segments of an
    outgoing QQ message, in a fixed order: the reply reference, the text,
    the local image paths, then the image URLs. */
module Segments {

  datatype Option<T> = None | Some(value: T)

  datatype Segment = Reply(id: string) | Text(text: string) | Image(file: string)

  /** The options of a send. For a scalar, None stands for a falsy value and
      Some for `String(v)` of a truthy one; an image list is None when it is
      not an array, and its elements follow the same convention. */
  datatype Request = Request(
    text: Option<string>,
    imageUrls: Option<seq<Option<string>>>,
    imagePaths: Option<seq<Option<string>>>,
    replyToMessageId: Option<string>)

  /** The truthy elements of a list, in order (`if (!p) continue`). */
  function Present(xs: seq<Option<string>>): seq<string>
    decreases |xs|
  {
    if |xs| == 0 then []
    else
      var last := xs[|xs| - 1];
      Present(xs[..|xs| - 1]) + (if last.Some? then [last.value] else [])
  }

  /** The elements of an image option, or none when it is not an array. */
  function Listed(xs: Option<seq<Option<string>>>): seq<string> {
    if xs.Some? then Present(xs.value) else []
  }

  /** One image segment per truthy element, in order. */
  function ImageSegments(xs: seq<Option<string>>): seq<Segment>
    decreases |xs|
  {
    if |xs| == 0 then []
    else
      var last := xs[|xs| - 1];
      ImageSegments(xs[..|xs| - 1]) + (if last.Some? then [Image(last.value)] else [])
  }

  function ListedSegments(xs: Option<seq<Option<string>>>): seq<Segment> {
    if xs.Some? then ImageSegments(xs.value) else []
  }

  /** The reply and text segments that precede the images. */
  function Header(req: Request): seq<Segment> {
    (if req.replyToMessageId.Some? then [Reply(req.replyToMessageId.value)] else [])
    + (if req.text.Some? then [Text(req.text.value)] else [])
  }

  /** The segment list the function builds. */
  function SegmentsOf(req: Request): seq<Segment> {
    Header(req) + ListedSegments(req.imagePaths) + ListedSegments(req.imageUrls)
  }

  /** `buildSegments` */
  method BuildSegments(req: Request) returns (segs: seq<Segment>)
    ensures segs == SegmentsOf(req)
  {
    segs := [];
    if req.replyToMessageId.Some? {
      segs := segs + [Reply(req.replyToMessageId.value)];
    }
    if req.text.Some? {
      segs := segs + [Text(req.text.value)];
    }
    if req.imagePaths.Some? {
      segs := AppendImages(segs, req.imagePaths.value);
    }
    if req.imageUrls.Some? {
      segs := AppendImages(segs, req.imageUrls.value);
    }
  }

  /** One of the two loops of `buildSegments`: an image segment for each
      truthy element, skipping the falsy ones. */
  method AppendImages(prefix: seq<Segment>, xs: seq<Option<string>>) returns (segs: seq<Segment>)
    ensures segs == prefix + ImageSegments(xs)
  {
    segs := prefix;
    var i := 0;
    while i < |xs|
      invariant 0 <= i <= |xs|
      invariant segs == prefix + ImageSegments(xs[..i])
    {
      assert xs[..i + 1][..i] == xs[..i];
      if xs[i].Some? {
        segs := segs + [Image(xs[i].value)];
      }
      i := i + 1;
    }
    assert xs[..|xs|] == xs;
  }

  /** The image segments of a list are the images of its truthy elements. */
  lemma {:induction false} ImageSegmentsPresent(xs: seq<Option<string>>)
    ensures |ImageSegments(xs)| == |Present(xs)|
    ensures forall k :: 0 <= k < |Present(xs)| ==> ImageSegments(xs)[k] == Image(Present(xs)[k])
    decreases |xs|
  {
    if |xs| > 0 {
      ImageSegmentsPresent(xs[..|xs| - 1]);
    }
  }

  /** Every truthy element appears, and nothing else does. */
  lemma {:induction false} PresentExactly(xs: seq<Option<string>>)
    ensures |Present(xs)| <= |xs|
    ensures forall f :: f in Present(xs) <==> Some(f) in xs
    decreases |xs|
  {
    if |xs| > 0 {
      var init := xs[..|xs| - 1];
      PresentExactly(init);
      assert xs == init + [xs[|xs| - 1]];
    }
  }

  /** The reply reference comes first and the text right after it. */
  lemma HeaderShape(req: Request)
    ensures var h := Header(req);
      && |h| == (if req.replyToMessageId.Some? then 1 else 0) + (if req.text.Some? then 1 else 0)
      && (req.replyToMessageId.Some? ==> h[0] == Reply(req.replyToMessageId.value))
      && (req.text.Some? ==> h[|h| - 1] == Text(req.text.value))
      && (forall k :: 0 <= k < |h| ==> !h[k].Image?)
  {
  }

  lemma Listed3(h: seq<Segment>, ps: seq<Segment>, us: seq<Segment>)
    ensures |h + ps + us| == |h| + |ps| + |us|
    ensures forall k :: 0 <= k < |h| ==> (h + ps + us)[k] == h[k]
    ensures forall k :: 0 <= k < |ps| ==> (h + ps + us)[|h| + k] == ps[k]
    ensures forall k :: 0 <= k < |us| ==> (h + ps + us)[|h| + |ps| + k] == us[k]
  {
  }

  lemma ListedImages(xs: Option<seq<Option<string>>>)
    ensures |ListedSegments(xs)| == |Listed(xs)|
    ensures forall k :: 0 <= k < |Listed(xs)| ==> ListedSegments(xs)[k] == Image(Listed(xs)[k])
  {
    if xs.Some? {
      ImageSegmentsPresent(xs.value);
    }
  }

  /** The order and content `buildSegments` promises: the reply reference
      first when there is one, then the text, then every present local path
      and after them every present URL, each as one image. */
  lemma SegmentOrder(req: Request)
    ensures var segs := SegmentsOf(req);
      var h := |Header(req)|;
      var paths := Listed(req.imagePaths);
      var urls := Listed(req.imageUrls);
      && h == (if req.replyToMessageId.Some? then 1 else 0) + (if req.text.Some? then 1 else 0)
      && |segs| == h + |paths| + |urls|
      && (req.replyToMessageId.Some? ==> segs[0] == Reply(req.replyToMessageId.value))
      && (req.text.Some? ==> segs[h - 1] == Text(req.text.value))
      && (forall k :: 0 <= k < h ==> !segs[k].Image?)
      && (forall k :: 0 <= k < |paths| ==> segs[h + k] == Image(paths[k]))
      && (forall k :: 0 <= k < |urls| ==> segs[h + |paths| + k] == Image(urls[k]))
  {
    HeaderShape(req);
    ListedImages(req.imagePaths);
    ListedImages(req.imageUrls);
    Listed3(Header(req), ListedSegments(req.imagePaths), ListedSegments(req.imageUrls));
  }

  /** Every segment after the reply and text is an image. */
  lemma ImagesAfterHeader(req: Request)
    ensures forall k :: 0 <= k < |SegmentsOf(req)| ==> (SegmentsOf(req)[k].Image? <==> k >= |Header(req)|)
  {
    SegmentOrder(req);
    var paths := Listed(req.imagePaths);
    var urls := Listed(req.imageUrls);
    var segs := SegmentsOf(req);
    var h := |Header(req)|;
    forall k | h <= k < |segs| ensures segs[k].Image? {
      if k < h + |paths| {
        assert segs[h + (k - h)] == Image(paths[k - h]);
      } else {
        assert segs[h + |paths| + (k - h - |paths|)] == Image(urls[k - h - |paths|]);
      }
    }
  }

  /** The images sent are the listed strings. */
  lemma ImageSentIffListed(req: Request, f: string)
    ensures Image(f) in SegmentsOf(req) <==> f in Listed(req.imagePaths) || f in Listed(req.imageUrls)
  {
    SegmentOrder(req);
    ImagesOfLayout(SegmentsOf(req), |Header(req)|, Listed(req.imagePaths), Listed(req.imageUrls), f);
  }

  /** In a header without images followed by the images of `paths` and then
      those of `urls`, an image occurs exactly for the strings listed. */
  lemma ImagesOfLayout(segs: seq<Segment>, h: nat, paths: seq<string>, urls: seq<string>, f: string)
    requires |segs| == h + |paths| + |urls|
    requires forall k :: 0 <= k < h ==> !segs[k].Image?
    requires forall k :: 0 <= k < |paths| ==> segs[h + k] == Image(paths[k])
    requires forall k :: 0 <= k < |urls| ==> segs[h + |paths| + k] == Image(urls[k])
    ensures Image(f) in segs <==> f in paths || f in urls
  {
    if Image(f) in segs {
      var k :| 0 <= k < |segs| && segs[k] == Image(f);
      if k < h + |paths| {
        assert segs[h + (k - h)] == Image(paths[k - h]);
      } else {
        assert segs[h + |paths| + (k - h - |paths|)] == Image(urls[k - h - |paths|]);
      }
    }
    if f in paths {
      var k :| 0 <= k < |paths| && paths[k] == f;
      assert segs[h + k] == Image(f);
    }
    if f in urls {
      var k :| 0 <= k < |urls| && urls[k] == f;
      assert segs[h + |paths| + k] == Image(f);
    }
  }

  /** Images come only from the inputs: an image is sent for a string
      exactly when one of the lists holds it as a truthy element. */
  lemma ImagesComeFromInputs(req: Request, f: string)
    ensures Image(f) in SegmentsOf(req) <==>
      (req.imagePaths.Some? && Some(f) in req.imagePaths.value)
      || (req.imageUrls.Some? && Some(f) in req.imageUrls.value)
  {
    ImageSentIffListed(req, f);
    if req.imagePaths.Some? {
      PresentExactly(req.imagePaths.value);
    }
    if req.imageUrls.Some? {
      PresentExactly(req.imageUrls.value);
    }
  }
}
