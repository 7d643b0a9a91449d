/** The chunk loop of the WebP decoder and its alpha chunk. Arithmetic decoding of the VP8 and VP8L bit streams
    enters as functions of the data; everything around them is written out. */
module WebpDecoder {
  import opened AlphaPlane
  import opened Arithmetic
  import opened Options

  // ---- the header of a lossless stream (section 3.4 of RFC 9649) ----

  datatype Header = Header(widthMinusOne: bv32, heightMinusOne: bv32, alphaIsUsed: bv8, version: bv8)

  const Magic: bv8 := 0x2f

  function Low8(x: bv32): bv8 { (x & 0xff) as bv8 }

  /** The five bytes put in front of a compressed alpha plane, which carries no header of its own. */
  function Synthesize(widthMinusOne: bv32, heightMinusOne: bv32): (bytes: seq<bv8>)
    ensures |bytes| == 5
  {
    [ Magic,
      Low8(widthMinusOne),
      Low8(widthMinusOne >> 8) | Low8(heightMinusOne << 6),
      Low8(heightMinusOne >> 2),
      Low8(heightMinusOne >> 10) ]
  }

  /** Reads the header fields from the least significant bit on: 14 + 14 + 1 + 3 bits after the magic number. */
  function Parse(bytes: seq<bv8>): Option<Header> {
    if |bytes| < 5 || bytes[0] != Magic then None
    else
      var bits := (bytes[1] as bv32) | (bytes[2] as bv32 << 8) | (bytes[3] as bv32 << 16) | (bytes[4] as bv32 << 24);
      Some(Header(bits & 0x3fff, (bits >> 14) & 0x3fff, ((bits >> 28) & 1) as bv8, ((bits >> 29) & 7) as bv8))
  }

  /** The synthesized header says what was meant, with clear flags, exactly when both sizes have 14 bits. */
  lemma HeaderReadsBack(widthMinusOne: bv32, heightMinusOne: bv32)
    ensures Parse(Synthesize(widthMinusOne, heightMinusOne)) == Some(Header(widthMinusOne, heightMinusOne, 0, 0))
            <==> widthMinusOne <= 0x3fff && heightMinusOne <= 0x3fff
  {
  }

  /** Every five bytes with clear flags are what Synthesize makes of the sizes they announce. */
  lemma HeaderWritesBack(bytes: seq<bv8>)
    requires |bytes| == 5 && Parse(bytes).Some?
    ensures var h := Parse(bytes).value;
            Synthesize(h.widthMinusOne, h.heightMinusOne) == bytes <==> h.alphaIsUsed == 0 && h.version == 0
  {
    var h := Parse(bytes).value;
    var again := Synthesize(h.widthMinusOne, h.heightMinusOne);
    assert again == bytes <==> (again[1] == bytes[1] && again[2] == bytes[2] && again[3] == bytes[3] && again[4] == bytes[4]);
  }

  // ---- decoders that are not written out ----

  datatype Frame = Frame(width: nat, height: nat, samples: seq<bv8>)
  datatype Picture = Picture(width: nat, height: nat, pix: seq<bv8>)

  /** entropy decodes the pixels of a lossless stream after its header; lossyHeader and lossyFrame decode VP8. */
  datatype Codecs = Codecs(entropy: (nat, nat, seq<bv8>) -> Option<seq<bv8>>,
                           lossyHeader: seq<bv8> -> Option<(nat, nat)>,
                           lossyFrame: seq<bv8> -> Option<Frame>)

  /** A lossless stream decodes to a picture of the size its header announces, four bytes a pixel, or not at all. */
  function Lossless(codecs: Codecs, data: seq<bv8>): (r: Option<Picture>)
    ensures r.Some? ==> |r.value.pix| == 4 * (r.value.width * r.value.height)
  {
    match Parse(data)
    case None => None
    case Some(h) =>
      if h.version != 0 then None
      else PictureOf(codecs, h.widthMinusOne as nat + 1, h.heightMinusOne as nat + 1, data[5..])
  }

  /** The pixels behind a header. */
  function PictureOf(codecs: Codecs, width: nat, height: nat, stream: seq<bv8>): (r: Option<Picture>)
    ensures r.Some? ==> |r.value.pix| == 4 * (r.value.width * r.value.height)
    ensures r.Some? ==> r.value.width == width && r.value.height == height && codecs.entropy(width, height, stream) == Some(r.value.pix)
  {
    match codecs.entropy(width, height, stream)
    case None => None
    case Some(pix) => if |pix| == 4 * (width * height) then Some(Picture(width, height, pix)) else None
  }

  // ---- the alpha chunk ----

  function Ints(s: seq<bv8>): seq<Byte> {
    seq(|s|, i requires 0 <= i < |s| => s[i] as int)
  }

  /** The green bytes of a picture: every fourth byte from the second on. */
  function Greens(pix: seq<bv8>): seq<Byte> {
    seq(|pix| / 4, i requires 0 <= i < |pix| / 4 => pix[4 * i + 1] as int)
  }

  function Area(widthMinusOne: bv32, heightMinusOne: bv32): nat {
    (widthMinusOne as nat + 1) * (heightMinusOne as nat + 1)
  }

  /** The filtered plane of an alpha chunk: stored as it is or as the green channel of a lossless picture. */
  function Plane(codecs: Codecs, data: seq<bv8>, widthMinusOne: bv32, heightMinusOne: bv32, compression: bv8)
    : Option<seq<Byte>>
  {
    if compression == 0 then
      var n := Area(widthMinusOne, heightMinusOne);
      if |data| < n then None else Some(Ints(data[..n]))
    else if compression == 1 && widthMinusOne <= 0x3fff && heightMinusOne <= 0x3fff then
      match Lossless(codecs, Synthesize(widthMinusOne, heightMinusOne) + data)
      case None => None
      case Some(picture) => Some(Greens(picture.pix))
    else None
  }

  lemma ParsePrefix(bytes: seq<bv8>, rest: seq<bv8>)
    requires |bytes| == 5
    ensures Parse(bytes + rest) == Parse(bytes)
  {
  }

  /** However the plane is compressed, it has one byte for every pixel of the canvas. */
  lemma PlaneSize(codecs: Codecs, data: seq<bv8>, widthMinusOne: bv32, heightMinusOne: bv32, compression: bv8)
    ensures var r := Plane(codecs, data, widthMinusOne, heightMinusOne, compression);
            r.Some? ==> |r.value| == Area(widthMinusOne, heightMinusOne)
  {
    HeaderReadsBack(widthMinusOne, heightMinusOne);
    ParsePrefix(Synthesize(widthMinusOne, heightMinusOne), data);
  }

  // ---- chunks ----

  /** data is what can be read of the chunk; size is the length it announces where the decoder looks at it. */
  datatype Chunk =
    | ALPH(data: seq<bv8>)
    | VP8(size: bv32, data: seq<bv8>)
    | VP8L(data: seq<bv8>)
    | VP8X(size: bv32, data: seq<bv8>)
    | Other

  datatype Color = YCbCr | NYCbCrA | NRGBA

  /** NoImage is a nil image with a nil error. */
  datatype Answer =
    | Config(color: Color, width: nat, height: nat)
    | Solid(frame: Frame)
    | Translucent(frame: Frame, alpha: seq<Byte>, stride: nat)
    | Still(picture: Picture)
    | NoImage
    | Malformed

  datatype State = State(alpha: Option<seq<Byte>>, stride: nat, want: bool, seen: bool, widthMinusOne: bv32, heightMinusOne: bv32)

  datatype Step = Done(answer: Answer) | Next(state: State)

  const Start := State(None, 0, false, false, 0, 0)

  function Compression(first: bv8): bv8 { first & 0x03 }
  function FilterOf(first: bv8): nat { ((first >> 2) & 0x03) as nat }
  predicate AlphaBit(first: bv8) { first & 0x10 != 0 }

  function Bits24(low: bv8, middle: bv8, high: bv8): bv32 {
    (low as bv32) | (middle as bv32 << 8) | (high as bv32 << 16)
  }

  function OnALPH(codecs: Codecs, s: State, data: seq<bv8>): Step {
    if !s.want then Done(Malformed)
    else if data == [] then Done(NoImage)
    else
      match Plane(codecs, data[1..], s.widthMinusOne, s.heightMinusOne, Compression(data[0]))
      case None => Done(Malformed)
      case Some(plane) =>
        var stride := s.widthMinusOne as nat + 1;
        Next(s.(want := false, stride := stride, alpha := Some(Unfilter(plane, stride, FilterOf(data[0])))))
  }

  function OnVP8(codecs: Codecs, s: State, size: bv32, data: seq<bv8>, configOnly: bool): Answer {
    if s.want || size >= 0x8000_0000 then Malformed
    else
      match codecs.lossyHeader(data)
      case None => Malformed
      case Some((w, h)) =>
        if configOnly then Config(YCbCr, w, h)
        else
          match codecs.lossyFrame(data)
          case None => Malformed
          case Some(frame) => if s.alpha.Some? then Translucent(frame, s.alpha.value, s.stride) else Solid(frame)
  }

  function OnVP8L(codecs: Codecs, hasAlpha: bool, data: seq<bv8>, configOnly: bool): Answer {
    if hasAlpha then Malformed
    else if configOnly then
      match Parse(data)
      case Some(h) => if h.version != 0 then Malformed
                      else Config(NRGBA, h.widthMinusOne as nat + 1, h.heightMinusOne as nat + 1)
      case None => Malformed
    else
      match Lossless(codecs, data)
      case Some(picture) => Still(picture)
      case None => Malformed
  }

  function OnVP8X(s: State, size: bv32, data: seq<bv8>, configOnly: bool): Step {
    if s.seen || size != 10 || |data| < 10 then Done(Malformed)
    else
      var want := AlphaBit(data[0]);
      var w, h := Bits24(data[4], data[5], data[6]), Bits24(data[7], data[8], data[9]);
      if configOnly then Done(Config(if want then NYCbCrA else YCbCr, w as nat + 1, h as nat + 1))
      else Next(s.(seen := true, want := want, widthMinusOne := w, heightMinusOne := h))
  }

  function StepOf(codecs: Codecs, s: State, c: Chunk, configOnly: bool): Step {
    match c
    case ALPH(data) => OnALPH(codecs, s, data)
    case VP8(size, data) => Done(OnVP8(codecs, s, size, data, configOnly))
    case VP8L(data) => Done(OnVP8L(codecs, s.alpha.Some?, data, configOnly))
    case VP8X(size, data) => OnVP8X(s, size, data, configOnly)
    case Other => Next(s)
  }

  /** Chunks in order until one of them decides the answer. Running out of chunks is an error. */
  function Scan(codecs: Codecs, s: State, chunks: seq<Chunk>, configOnly: bool): Answer
    decreases |chunks|
  {
    if chunks == [] then Malformed
    else
      match StepOf(codecs, s, chunks[0], configOnly)
      case Done(answer) => answer
      case Next(t) => Scan(codecs, t, chunks[1..], configOnly)
  }

  // ---- which files have an alpha plane ----

  function Known(chunks: seq<Chunk>): seq<Chunk> {
    if chunks == [] then []
    else if chunks[0].Other? then Known(chunks[1..])
    else [chunks[0]] + Known(chunks[1..])
  }

  /** Unknown chunks make no difference, wherever they stand. */
  lemma {:induction false} UnknownIgnored(codecs: Codecs, s: State, chunks: seq<Chunk>, configOnly: bool)
    ensures Scan(codecs, s, chunks, configOnly) == Scan(codecs, s, Known(chunks), configOnly)
    decreases |chunks|
  {
    if chunks != [] {
      var known := Known(chunks);
      if !chunks[0].Other? {
        assert known[0] == chunks[0] && known[1..] == Known(chunks[1..]);
      }
      match StepOf(codecs, s, chunks[0], configOnly)
      case Done(_) =>
      case Next(t) => UnknownIgnored(codecs, t, chunks[1..], configOnly);
    }
  }

  /** A canvas chunk of ten bytes that announces alpha. */
  predicate Canvas(c: Chunk) {
    c.VP8X? && c.size == 10 && |c.data| >= 10 && AlphaBit(c.data[0])
  }

  function WidthOf(c: Chunk): bv32 requires Canvas(c) { Bits24(c.data[4], c.data[5], c.data[6]) }
  function HeightOf(c: Chunk): bv32 requires Canvas(c) { Bits24(c.data[7], c.data[8], c.data[9]) }

  function FilteredPlane(codecs: Codecs, canvas: Chunk, c: Chunk): Option<seq<Byte>>
    requires Canvas(canvas) && c.ALPH? && c.data != []
  {
    Plane(codecs, c.data[1..], WidthOf(canvas), HeightOf(canvas), Compression(c.data[0]))
  }

  predicate LossyImage(codecs: Codecs, c: Chunk) {
    c.VP8? && c.size < 0x8000_0000 && codecs.lossyHeader(c.data).Some? && codecs.lossyFrame(c.data).Some?
  }

  /** The only layout that gives an image with alpha: canvas, alpha, image, with unknown chunks anywhere between. */
  predicate AlphaLayout(codecs: Codecs, known: seq<Chunk>) {
    && |known| >= 3
    && Canvas(known[0])
    && known[1].ALPH? && known[1].data != [] && FilteredPlane(codecs, known[0], known[1]).Some?
    && LossyImage(codecs, known[2])
  }

  lemma ScanOne(codecs: Codecs, s: State, chunks: seq<Chunk>)
    requires chunks != []
    ensures Scan(codecs, s, chunks, false) == match StepOf(codecs, s, chunks[0], false)
                                              case Done(answer) => answer
                                              case Next(t) => Scan(codecs, t, chunks[1..], false)
  {
  }

  /** Without a plane and without a canvas that asks for one, no plane appears. */
  lemma {:induction false} NeverTranslucent(codecs: Codecs, s: State, chunks: seq<Chunk>)
    requires s.alpha.None? && !s.want && s.seen
    ensures !Scan(codecs, s, chunks, false).Translucent?
    decreases |chunks|
  {
    if chunks != [] {
      match StepOf(codecs, s, chunks[0], false)
      case Done(_) =>
      case Next(t) => NeverTranslucent(codecs, t, chunks[1..]);
    }
  }

  lemma AfterAlpha(codecs: Codecs, s: State, known: seq<Chunk>)
    requires s.alpha.Some? && !s.want && s.seen
    requires known == Known(known)
    ensures Scan(codecs, s, known, false).Translucent? <==> known != [] && LossyImage(codecs, known[0])
    ensures Scan(codecs, s, known, false).Translucent?
            ==> Scan(codecs, s, known, false) == Translucent(codecs.lossyFrame(known[0].data).value, s.alpha.value, s.stride)
  {
    if known != [] {
      KnownHead(known);
      ScanOne(codecs, s, known);
    }
  }

  lemma {:induction false} KnownTwice(chunks: seq<Chunk>)
    ensures Known(Known(chunks)) == Known(chunks)
    ensures forall i :: 0 <= i < |Known(chunks)| ==> !Known(chunks)[i].Other?
  {
    if chunks != [] {
      KnownTwice(chunks[1..]);
      if !chunks[0].Other? { assert Known(chunks)[1..] == Known(chunks[1..]); }
    }
  }

  lemma KnownHead(known: seq<Chunk>)
    requires known == Known(known) && known != []
    ensures !known[0].Other? && known[1..] == Known(known[1..])
  {
    KnownTwice(known);
    assert !known[0].Other?;
    assert Known(known)[1..] == Known(known[1..]);
  }

  lemma AfterCanvas(codecs: Codecs, s: State, known: seq<Chunk>)
    requires s.alpha.None? && s.want && s.seen
    requires known == Known(known) && known != []
    ensures var answer := Scan(codecs, s, known, false);
            && (answer.Translucent? ==> known[0].ALPH? && known[0].data != [])
            && (known[0].ALPH? && known[0].data != [] ==>
                  var plane := Plane(codecs, known[0].data[1..], s.widthMinusOne, s.heightMinusOne, Compression(known[0].data[0]));
                  var stride := s.widthMinusOne as nat + 1;
                  && (answer.Translucent? <==> plane.Some? && |known| >= 2 && LossyImage(codecs, known[1]))
                  && (answer.Translucent? ==> answer == Translucent(codecs.lossyFrame(known[1].data).value,
                        Unfilter(plane.value, stride, FilterOf(known[0].data[0])), stride)))
  {
    KnownHead(known);
    ScanOne(codecs, s, known);
    match StepOf(codecs, s, known[0], false)
    case Done(_) =>
    case Next(t) =>
      AfterAlpha(codecs, t, known[1..]);
  }

  lemma FirstChunk(codecs: Codecs, known: seq<Chunk>)
    requires known == Known(known) && known != []
    ensures !Canvas(known[0]) ==> !Scan(codecs, Start, known, false).Translucent?
    ensures Canvas(known[0]) ==>
      Scan(codecs, Start, known, false)
      == Scan(codecs, State(None, 0, true, true, WidthOf(known[0]), HeightOf(known[0])), known[1..], false)
  {
    KnownHead(known);
    ScanOne(codecs, Start, known);
    match StepOf(codecs, Start, known[0], false)
    case Done(_) =>
    case Next(t) =>
      if !t.want { NeverTranslucent(codecs, t, known[1..]); }
  }

  /** The answer of the one layout: the plane of the alpha chunk, unfiltered with the canvas width as stride. */
  function Composed(codecs: Codecs, known: seq<Chunk>): Answer
    requires AlphaLayout(codecs, known)
  {
    var stride := WidthOf(known[0]) as nat + 1;
    Translucent(codecs.lossyFrame(known[2].data).value,
                Unfilter(FilteredPlane(codecs, known[0], known[1]).value, stride, FilterOf(known[1].data[0])),
                stride)
  }

  /** An image with alpha comes out of exactly one layout, wherever unknown chunks stand. */
  lemma AlphaOnlyAfterCanvas(codecs: Codecs, chunks: seq<Chunk>)
    ensures var answer, known := Scan(codecs, Start, chunks, false), Known(chunks);
            && (answer.Translucent? <==> AlphaLayout(codecs, known))
            && (answer.Translucent? ==> answer == Composed(codecs, known))
  {
    var known := Known(chunks);
    UnknownIgnored(codecs, Start, chunks, false);
    KnownTwice(chunks);
    if known != [] {
      FirstChunk(codecs, known);
      KnownHead(known);
      if Canvas(known[0]) && |known| >= 2 {
        AfterCanvas(codecs, State(None, 0, true, true, WidthOf(known[0]), HeightOf(known[0])), known[1..]);
      }
    }
  }

  lemma ComposedPlane(codecs: Codecs, known: seq<Chunk>)
    requires AlphaLayout(codecs, known)
    ensures |FilteredPlane(codecs, known[0], known[1]).value| == Area(WidthOf(known[0]), HeightOf(known[0]))
  {
    PlaneSize(codecs, known[1].data[1..], WidthOf(known[0]), HeightOf(known[0]), Compression(known[1].data[0]));
  }

  lemma Unfiltered(plane: seq<Byte>, stride: nat, filter: nat)
    ensures |Unfilter(plane, stride, filter)| == |plane|
    ensures Filter(Unfilter(plane, stride, filter), stride, filter) == plane
  {
    UnfilterInvertsFilter(plane, stride, filter);
  }

  /** The plane of that answer covers the canvas, and filtering it forward gives back what the file stores. */
  lemma AlphaCoversCanvas(codecs: Codecs, known: seq<Chunk>)
    requires AlphaLayout(codecs, known)
    ensures |Composed(codecs, known).alpha| == Area(WidthOf(known[0]), HeightOf(known[0]))
    ensures FilteredPlane(codecs, known[0], known[1])
            == Some(Filter(Composed(codecs, known).alpha, Composed(codecs, known).stride, FilterOf(known[1].data[0])))
  {
    var filtered := FilteredPlane(codecs, known[0], known[1]);
    var composed := Composed(codecs, known);
    ComposedPlane(codecs, known);
    Unfiltered(filtered.value, composed.stride, FilterOf(known[1].data[0]));
  }

  // ---- every answer, from the layout of the chunks ----

  /** Three bytes as a number, the least significant first. */
  function LittleEndian(low: bv8, middle: bv8, high: bv8): bv32 {
    low as bv32 + 0x100 * (middle as bv32) + 0x10000 * (high as bv32)
  }

  lemma BitsAdd(low: bv8, middle: bv8, high: bv8)
    ensures Bits24(low, middle, high) == LittleEndian(low, middle, high)
  {
  }

  /** A canvas chunk of ten bytes. */
  predicate CanvasChunk(c: Chunk) { c.VP8X? && c.size == 10 && |c.data| >= 10 }

  /** Bit 4 of the first byte announces alpha. */
  predicate SaysAlpha(c: Chunk)
    requires CanvasChunk(c)
  {
    c.data[0] / 16 % 2 == 1
  }

  lemma AlphaBitIs(b: bv8)
    ensures AlphaBit(b) <==> b / 16 % 2 == 1
  {
  }

  /** Chunk i decides: it comes first or right behind one canvas chunk, which may announce alpha only if anyAlpha. */
  predicate Decides(known: seq<Chunk>, i: nat, anyAlpha: bool) {
    i < |known| && (i == 0 || (i == 1 && CanvasChunk(known[0]) && (anyAlpha || !SaysAlpha(known[0]))))
  }

  predicate LossyAt(codecs: Codecs, known: seq<Chunk>, i: nat) {
    Decides(known, i, false) && LossyImage(codecs, known[i])
  }

  /** A lossless image takes no notice of the alpha bit. */
  predicate LosslessAt(codecs: Codecs, known: seq<Chunk>, i: nat) {
    Decides(known, i, true) && known[i].VP8L? && Lossless(codecs, known[i].data).Some?
  }

  /** The picture of a lossless stream has the size its header announces and the pixels decoded for that size; there is one
      exactly if the header is readable, of version 0, and the pixels are as many as the size says. */
  lemma LosslessExact(codecs: Codecs, data: seq<bv8>, picture: Picture)
    ensures Lossless(codecs, data) == Some(picture) <==>
              && Parse(data).Some? && Parse(data).value.version == 0
              && picture.width == Parse(data).value.widthMinusOne as nat + 1
              && picture.height == Parse(data).value.heightMinusOne as nat + 1
              && codecs.entropy(picture.width, picture.height, data[5..]) == Some(picture.pix)
              && |picture.pix| == 4 * (picture.width * picture.height)
  {
    if Parse(data).Some? && Parse(data).value.version == 0 { LosslessOf(codecs, data, Parse(data).value); }
  }

  /** An alpha chunk without a first byte, where one is due. */
  predicate EmptyAlpha(known: seq<Chunk>) {
    |known| >= 2 && CanvasChunk(known[0]) && SaysAlpha(known[0]) && known[1].ALPH? && known[1].data == []
  }

  /** What comes out of known chunks: a plain frame or a still picture exactly if the image chunk stands where it decides,
      an image with alpha exactly for its layout, a nil image exactly for an empty alpha chunk; otherwise an error. */
  ghost predicate ImageOk(codecs: Codecs, known: seq<Chunk>, answer: Answer) {
    && (answer.Solid? <==> LossyAt(codecs, known, 0) || LossyAt(codecs, known, 1))
    && (forall i :: 0 <= i < 2 && LossyAt(codecs, known, i) ==> answer == Solid(codecs.lossyFrame(known[i].data).value))
    && (answer.Still? <==> LosslessAt(codecs, known, 0) || LosslessAt(codecs, known, 1))
    && (forall i :: 0 <= i < 2 && LosslessAt(codecs, known, i) ==> answer == Still(Lossless(codecs, known[i].data).value))
    && (answer.Translucent? <==> AlphaLayout(codecs, known))
    && (answer.NoImage? <==> EmptyAlpha(known))
    && !answer.Config?
  }

  /** What a request for the configuration gets: the first known chunk decides. */
  ghost predicate ConfigOk(codecs: Codecs, known: seq<Chunk>, answer: Answer) {
    if known == [] then answer == Malformed
    else
      match known[0]
      case VP8(size, data) =>
        answer == (match codecs.lossyHeader(data)
                   case Some((w, h)) => if size < 0x8000_0000 then Config(YCbCr, w, h) else Malformed
                   case None => Malformed)
      case VP8L(data) =>
        answer == (match Parse(data)
                   case Some(h) => if h.version == 0 then Config(NRGBA, h.widthMinusOne as nat + 1, h.heightMinusOne as nat + 1)
                                   else Malformed
                   case None => Malformed)
      case VP8X(size, data) =>
        answer == (if CanvasChunk(known[0])
                   then Config(if SaysAlpha(known[0]) then NYCbCrA else YCbCr,
                               LittleEndian(data[4], data[5], data[6]) as nat + 1,
                               LittleEndian(data[7], data[8], data[9]) as nat + 1)
                   else Malformed)
      case _ => answer == Malformed
  }

  lemma ConfigFirst(codecs: Codecs, known: seq<Chunk>)
    requires forall i :: 0 <= i < |known| ==> !known[i].Other?
    ensures ConfigOk(codecs, known, Scan(codecs, Start, known, true))
  {
    if known != [] && CanvasChunk(known[0]) {
      var data := known[0].data;
      AlphaBitIs(data[0]);
      BitsAdd(data[4], data[5], data[6]);
      BitsAdd(data[7], data[8], data[9]);
    }
  }

  /** Behind a canvas without alpha. */
  lemma AfterPlainCanvas(codecs: Codecs, s: State, rest: seq<Chunk>)
    requires s.alpha.None? && !s.want && s.seen && forall i :: 0 <= i < |rest| ==> !rest[i].Other?
    ensures var answer := Scan(codecs, s, rest, false);
            && (answer.Solid? <==> rest != [] && LossyImage(codecs, rest[0]))
            && (answer.Solid? ==> answer == Solid(codecs.lossyFrame(rest[0].data).value))
            && (answer.Still? <==> rest != [] && rest[0].VP8L? && Lossless(codecs, rest[0].data).Some?)
            && (answer.Still? ==> answer == Still(Lossless(codecs, rest[0].data).value))
            && !answer.NoImage? && !answer.Config?
  {
    if rest != [] { ScanOne(codecs, s, rest); }
  }

  /** Behind an alpha chunk that was read. */
  lemma AfterReadAlpha(codecs: Codecs, s: State, rest: seq<Chunk>)
    requires s.alpha.Some? && !s.want && s.seen && forall i :: 0 <= i < |rest| ==> !rest[i].Other?
    ensures var answer := Scan(codecs, s, rest, false); answer.Translucent? || answer.Malformed?
  {
    if rest != [] { ScanOne(codecs, s, rest); }
  }

  /** Behind a canvas with alpha. */
  lemma AfterAlphaCanvas(codecs: Codecs, s: State, rest: seq<Chunk>)
    requires s.alpha.None? && s.want && s.seen && forall i :: 0 <= i < |rest| ==> !rest[i].Other?
    ensures var answer := Scan(codecs, s, rest, false);
            && (answer.Still? <==> rest != [] && rest[0].VP8L? && Lossless(codecs, rest[0].data).Some?)
            && (answer.Still? ==> answer == Still(Lossless(codecs, rest[0].data).value))
            && (answer.NoImage? <==> rest != [] && rest[0].ALPH? && rest[0].data == [])
            && !answer.Solid? && !answer.Config?
  {
    if rest != [] {
      ScanOne(codecs, s, rest);
      match StepOf(codecs, s, rest[0], false)
      case Done(_) =>
      case Next(t) => AfterReadAlpha(codecs, t, rest[1..]);
    }
  }

  lemma FirstDecides(codecs: Codecs, known: seq<Chunk>)
    requires known != [] && !known[0].Other? && !CanvasChunk(known[0])
    ensures var answer := Scan(codecs, Start, known, false);
            && (answer.Solid? <==> LossyImage(codecs, known[0]))
            && (answer.Solid? ==> answer == Solid(codecs.lossyFrame(known[0].data).value))
            && (answer.Still? <==> known[0].VP8L? && Lossless(codecs, known[0].data).Some?)
            && (answer.Still? ==> answer == Still(Lossless(codecs, known[0].data).value))
            && !answer.NoImage? && !answer.Config?
  {
    ScanOne(codecs, Start, known);
  }

  lemma CanvasStep(codecs: Codecs, known: seq<Chunk>) returns (s: State)
    requires known != [] && CanvasChunk(known[0])
    ensures Scan(codecs, Start, known, false) == Scan(codecs, s, known[1..], false)
    ensures s.alpha.None? && s.seen && (s.want <==> SaysAlpha(known[0]))
  {
    ScanOne(codecs, Start, known);
    AlphaBitIs(known[0].data[0]);
    s := StepOf(codecs, Start, known[0], false).state;
  }

  lemma ImageFromKnown(codecs: Codecs, known: seq<Chunk>)
    requires known == Known(known) && forall i :: 0 <= i < |known| ==> !known[i].Other?
    ensures ImageOk(codecs, known, Scan(codecs, Start, known, false))
  {
    AlphaOnlyAfterCanvas(codecs, known);
    if known != [] {
      if CanvasChunk(known[0]) {
        var s := CanvasStep(codecs, known);
        if s.want { AfterAlphaCanvas(codecs, s, known[1..]); } else { AfterPlainCanvas(codecs, s, known[1..]); }
      } else {
        FirstDecides(codecs, known);
      }
    }
  }

  /** Every answer of the decoder is the one its known chunks call for. */
  lemma ScanAnswers(codecs: Codecs, chunks: seq<Chunk>)
    ensures ImageOk(codecs, Known(chunks), Scan(codecs, Start, chunks, false))
    ensures ConfigOk(codecs, Known(chunks), Scan(codecs, Start, chunks, true))
  {
    KnownTwice(chunks);
    UnknownIgnored(codecs, Start, chunks, false);
    UnknownIgnored(codecs, Start, chunks, true);
    ImageFromKnown(codecs, Known(chunks));
    ConfigFirst(codecs, Known(chunks));
  }

  // ---- the bytes of the alpha plane ----

  /** What an alpha chunk stores for a canvas: the bytes as they are, or the second of the four bytes of every pixel of a
      lossless stream. Bits 0 and 1 of its first byte tell which, bits 2 and 3 the filter. */
  ghost predicate Stores(codecs: Codecs, canvas: Chunk, c: Chunk, d: seq<Byte>)
    requires CanvasChunk(canvas) && c.ALPH? && c.data != []
  {
    var columns := LittleEndian(canvas.data[4], canvas.data[5], canvas.data[6]) as nat + 1;
    var rows := LittleEndian(canvas.data[7], canvas.data[8], canvas.data[9]) as nat + 1;
    && |d| == columns * rows
    && if c.data[0] % 4 == 0 then |c.data| > |d| && forall i :: 0 <= i < |d| ==> d[i] == c.data[1 + i] as int
       else c.data[0] % 4 == 1 && StoresGreen(codecs, columns, rows, c.data[1..], d)
  }

  ghost predicate StoresGreen(codecs: Codecs, columns: nat, rows: nat, stream: seq<bv8>, d: seq<Byte>) {
    var pix := codecs.entropy(columns, rows, stream);
    pix.Some? && |pix.value| == 4 * |d| && forall i :: 0 <= i < |d| ==> d[i] == pix.value[4 * i + 1] as int
  }

  lemma FirstByteBits(b: bv8)
    ensures Compression(b) == b % 4
  {
  }

  lemma FilterBits(b: bv8)
    ensures FilterOf(b) == (b / 4 % 4) as nat
  {
    assert (b >> 2) & 0x03 == b / 4 % 4;
  }

  lemma LosslessOf(codecs: Codecs, data: seq<bv8>, h: Header)
    requires Parse(data) == Some(h) && h.version == 0
    ensures Lossless(codecs, data) == PictureOf(codecs, h.widthMinusOne as nat + 1, h.heightMinusOne as nat + 1, data[5..])
  {
  }

  lemma HeadedPrefix(data: seq<bv8>, widthMinusOne: bv32, heightMinusOne: bv32)
    requires widthMinusOne <= 0x3fff && heightMinusOne <= 0x3fff
    ensures var stream := Synthesize(widthMinusOne, heightMinusOne) + data;
            Parse(stream) == Some(Header(widthMinusOne, heightMinusOne, 0, 0)) && stream[5..] == data
  {
    HeaderReadsBack(widthMinusOne, heightMinusOne);
    ParsePrefix(Synthesize(widthMinusOne, heightMinusOne), data);
  }

  /** The picture of a stream behind a header made for it. */
  lemma HeadedStream(codecs: Codecs, data: seq<bv8>, widthMinusOne: bv32, heightMinusOne: bv32)
    requires widthMinusOne <= 0x3fff && heightMinusOne <= 0x3fff
    requires Lossless(codecs, Synthesize(widthMinusOne, heightMinusOne) + data).Some?
    ensures var picture := Lossless(codecs, Synthesize(widthMinusOne, heightMinusOne) + data).value;
            codecs.entropy(widthMinusOne as nat + 1, heightMinusOne as nat + 1, data) == Some(picture.pix)
  {
    HeadedPrefix(data, widthMinusOne, heightMinusOne);
    LosslessOf(codecs, Synthesize(widthMinusOne, heightMinusOne) + data, Header(widthMinusOne, heightMinusOne, 0, 0));
  }

  lemma GreenPlane(codecs: Codecs, data: seq<bv8>, widthMinusOne: bv32, heightMinusOne: bv32)
    requires Plane(codecs, data, widthMinusOne, heightMinusOne, 1).Some?
    ensures var plane := Plane(codecs, data, widthMinusOne, heightMinusOne, 1).value;
            StoresGreen(codecs, widthMinusOne as nat + 1, heightMinusOne as nat + 1, data, plane)
  {
    HeadedStream(codecs, data, widthMinusOne, heightMinusOne);
  }

  /** The alpha of an image with alpha is what its chunk stores, unfiltered pixel by pixel. */
  lemma AlphaPixels(codecs: Codecs, chunks: seq<Chunk>)
    requires Scan(codecs, Start, chunks, false).Translucent?
    ensures var answer, known := Scan(codecs, Start, chunks, false), Known(chunks);
            && |known| >= 3 && CanvasChunk(known[0]) && known[1].ALPH? && known[1].data != [] && known[2].VP8?
            && codecs.lossyFrame(known[2].data) == Some(answer.frame)
            && answer.stride == LittleEndian(known[0].data[4], known[0].data[5], known[0].data[6]) as nat + 1
            && exists d :: Stores(codecs, known[0], known[1], d)
                           && PlaneOk(d, answer.alpha, answer.stride, (known[1].data[0] / 4 % 4) as nat)
  {
    var known := Known(chunks);
    AlphaOnlyAfterCanvas(codecs, chunks);
    PlaneStored(codecs, known);
    UnfilterOk(FilteredPlane(codecs, known[0], known[1]).value, WidthOf(known[0]) as nat + 1, FilterOf(known[1].data[0]));
    FilterBits(known[1].data[0]);
    BitsAdd(known[0].data[4], known[0].data[5], known[0].data[6]);
  }

  lemma PlaneStored(codecs: Codecs, known: seq<Chunk>)
    requires AlphaLayout(codecs, known)
    ensures Stores(codecs, known[0], known[1], FilteredPlane(codecs, known[0], known[1]).value)
  {
    var canvas, c := known[0], known[1];
    BitsAdd(canvas.data[4], canvas.data[5], canvas.data[6]);
    BitsAdd(canvas.data[7], canvas.data[8], canvas.data[9]);
    FirstByteBits(c.data[0]);
    ComposedPlane(codecs, known);
    if Compression(c.data[0]) == 1 { GreenPlane(codecs, c.data[1..], WidthOf(canvas), HeightOf(canvas)); }
  }

  /** The byte of the plane that holds the alpha of pixel (x, y). */
  function Offset(stride: nat, x: nat, y: nat): nat { stride * y + x }

  /** Pixel (x, y) reads a byte of the plane, and one of its own row. */
  predicate InOwnRow(length: nat, stride: nat, x: nat, y: nat) {
    x < stride && Offset(stride, x, y) < length
  }

  ghost predicate RowsFit(length: nat, stride: nat, width: nat, height: nat) {
    forall x: nat, y: nat :: x < width && y < height ==> InOwnRow(length, stride, x, y)
  }

  ghost predicate PixelsFit(length: nat, stride: nat, width: nat, height: nat) {
    forall x: nat, y: nat :: x < width && y < height ==> Offset(stride, x, y) < length
  }

  lemma RowsFitExact(rows: nat, stride: nat, width: nat, height: nat)
    ensures RowsFit(stride * rows, stride, width, height)
            <==> width == 0 || height == 0 || (width <= stride && height <= rows)
  {
    if RowsFit(stride * rows, stride, width, height) && width > 0 && height > 0 {
      assert InOwnRow(stride * rows, stride, width - 1, height - 1);
      MulGap(stride, rows, height);
      MulGap(stride, rows, height - 1);
    } else if width <= stride && height <= rows {
      forall x: nat, y: nat | x < width && y < height ensures InOwnRow(stride * rows, stride, x, y) {
        MulGap(stride, y, rows);
      }
    }
  }

  lemma PixelsFitExact(length: nat, stride: nat, width: nat, height: nat)
    ensures PixelsFit(length, stride, width, height)
            <==> width == 0 || height == 0 || Offset(stride, width - 1, height - 1) < length
  {
    if width > 0 && height > 0 && Offset(stride, width - 1, height - 1) < length {
      forall x: nat, y: nat | x < width && y < height ensures Offset(stride, x, y) < length {
        MulGap(stride, y, height - 1);
      }
    }
  }

  /** Every pixel of the frame finds its alpha in its own row of the plane if and only if the frame, unless it is empty, is
      neither wider nor higher than the canvas; and none reads past the end of the plane if and only if the last one does
      not. */
  ghost predicate FitsAsFar(answer: Answer, columns: nat, rows: nat)
    requires answer.Translucent?
  {
    var (n, width, height) := (|answer.alpha|, answer.frame.width, answer.frame.height);
    && (RowsFit(n, answer.stride, width, height) <==> width == 0 || height == 0 || (width <= columns && height <= rows))
    && (PixelsFit(n, answer.stride, width, height)
        <==> width == 0 || height == 0 || Offset(answer.stride, width - 1, height - 1) < n)
  }

  lemma FitsExact(answer: Answer, columns: nat, rows: nat)
    requires answer.Translucent? && answer.stride == columns && |answer.alpha| == columns * rows
    ensures FitsAsFar(answer, columns, rows)
  {
    RowsFitExact(rows, columns, answer.frame.width, answer.frame.height);
    PixelsFitExact(|answer.alpha|, columns, answer.frame.width, answer.frame.height);
  }

  /** The chunk announces a canvas of so many columns and rows. */
  predicate CanvasIs(canvas: Chunk, columns: nat, rows: nat)
    requires Canvas(canvas)
  {
    columns == WidthOf(canvas) as nat + 1 && rows == HeightOf(canvas) as nat + 1
  }

  lemma PlaneShape(codecs: Codecs, chunks: seq<Chunk>, columns: nat, rows: nat)
    requires AlphaLayout(codecs, Known(chunks)) && CanvasIs(Known(chunks)[0], columns, rows)
    ensures var answer := Scan(codecs, Start, chunks, false);
            answer.Translucent? && answer.stride == columns && |answer.alpha| == columns * rows
  {
    AlphaOnlyAfterCanvas(codecs, chunks);
    AlphaCoversCanvas(codecs, Known(chunks));
  }

  /** The frame beside the plane is never compared with the canvas; so far it fits. */
  lemma PlaneFitsFrame(codecs: Codecs, chunks: seq<Chunk>, columns: nat, rows: nat)
    requires AlphaLayout(codecs, Known(chunks)) && CanvasIs(Known(chunks)[0], columns, rows)
    ensures var answer := Scan(codecs, Start, chunks, false); answer.Translucent? && FitsAsFar(answer, columns, rows)
  {
    PlaneShape(codecs, chunks, columns, rows);
    FitsExact(Scan(codecs, Start, chunks, false), columns, rows);
  }

  /** The one layout, with a stored plane of two times eight bytes and a frame of four times four pixels. */
  function WideCanvas(): seq<Chunk> {
    [VP8X(10, [0x10, 0, 0, 0, 7, 0, 0, 1, 0, 0]), ALPH([0] + seq(16, _ => 7)), VP8(0, [])]
  }

  function FourByFour(): Codecs {
    Codecs((w, h, d) => None, d => Some((4, 4)), d => Some(Frame(4, 4, [])))
  }

  lemma WideLayout()
    ensures Known(WideCanvas()) == WideCanvas() && AlphaLayout(FourByFour(), WideCanvas())
    ensures CanvasIs(WideCanvas()[0], 8, 2)
  {
    var chunks := WideCanvas();
    assert chunks[1..][1..] == [VP8(0, [])];
    assert Known([VP8(0, [])]) == [VP8(0, [])];
    assert Known(chunks[1..]) == chunks[1..];
  }

  /** The canvas is never compared with the image it carries: a plane of as many bytes as the frame has pixels, sixteen,
      which the last pixel misses. */
  lemma PlaneMayNotFitFrame()
    ensures var answer := Scan(FourByFour(), Start, WideCanvas(), false);
            && answer.Translucent? && |answer.alpha| == answer.frame.width * answer.frame.height
            && !PixelsFit(|answer.alpha|, answer.stride, answer.frame.width, answer.frame.height)
  {
    WideLayout();
    PlaneFitsFrame(FourByFour(), WideCanvas(), 8, 2);
    PlaneShape(FourByFour(), WideCanvas(), 8, 2);
    AlphaOnlyAfterCanvas(FourByFour(), WideCanvas());
  }

  // ---- the decoder itself ----

  method CopyGreens(pix: seq<bv8>) returns (alpha: array<Byte>)
    ensures fresh(alpha) && alpha[..] == Greens(pix)
  {
    alpha := new Byte[|pix| / 4](_ => 0);
    for i := 0 to alpha.Length
      invariant alpha[..i] == Greens(pix)[..i]
    {
      alpha[i] := pix[4 * i + 1] as int;
      assert alpha[..i + 1] == alpha[..i] + [alpha[i]];
    }
    assert alpha[..] == alpha[..alpha.Length];
    assert Greens(pix)[..alpha.Length] == Greens(pix);
  }

  method ReadAlpha(codecs: Codecs, data: seq<bv8>, widthMinusOne: bv32, heightMinusOne: bv32, compression: bv8)
    returns (alpha: array?<Byte>, stride: nat)
    ensures var plane := Plane(codecs, data, widthMinusOne, heightMinusOne, compression);
            && (alpha == null <==> plane.None?)
            && (alpha != null ==> fresh(alpha) && alpha[..] == plane.value && stride == widthMinusOne as nat + 1)
  {
    alpha, stride := null, 0;
    if compression == 0 {
      var n := Area(widthMinusOne, heightMinusOne);
      if |data| >= n {
        var bytes := Ints(data[..n]);
        alpha := new Byte[n](i requires 0 <= i < n => bytes[i]);
        stride := widthMinusOne as nat + 1;
        assert alpha[..] == bytes;
      }
    } else if compression == 1 && widthMinusOne <= 0x3fff && heightMinusOne <= 0x3fff {
      var picture := Lossless(codecs, Synthesize(widthMinusOne, heightMinusOne) + data);
      if picture.Some? {
        alpha := CopyGreens(picture.value.pix);
        stride := widthMinusOne as nat + 1;
      }
    }
  }

  lemma WholePlane(stride: nat, rows: nat)
    requires stride > 0 && rows > 0
    ensures Aligned(stride * rows, stride) && stride <= stride * rows
  {
    WholeRows(rows, stride);
    assert stride * rows == rows * stride;
    assert stride * rows == stride + stride * (rows - 1);
  }

  lemma WholeCanvas(widthMinusOne: bv32, heightMinusOne: bv32)
    ensures var n, stride := Area(widthMinusOne, heightMinusOne), widthMinusOne as nat + 1;
            Aligned(n, stride) && stride <= n
  {
    WholePlane(widthMinusOne as nat + 1, heightMinusOne as nat + 1);
  }

  /** The plane consists of whole rows, so the unfiltering loops stay in bounds. */
  lemma PlaneHasWholeRows(codecs: Codecs, data: seq<bv8>, widthMinusOne: bv32, heightMinusOne: bv32, compression: bv8)
    requires Plane(codecs, data, widthMinusOne, heightMinusOne, compression).Some?
    ensures var n := |Plane(codecs, data, widthMinusOne, heightMinusOne, compression).value|;
            var stride := widthMinusOne as nat + 1;
            Aligned(n, stride) && stride <= n
  {
    WholeCanvas(widthMinusOne, heightMinusOne);
    PlaneSize(codecs, data, widthMinusOne, heightMinusOne, compression);
  }

  /** The decoder's own variables agree with the state. */
  ghost predicate Agrees(s: State, alpha: array?<Byte>, stride: nat, want: bool, seen: bool, w: bv32, h: bv32)
    reads alpha
  {
    s == State(if alpha == null then None else Some(alpha[..]), stride, want, seen, w, h)
  }

  /** One alpha chunk: reads the plane and unfilters it in place. */
  method TakeAlpha(codecs: Codecs, ghost s: State, data: seq<bv8>, w: bv32, h: bv32)
    returns (alpha: array?<Byte>, stride: nat)
    requires s.want && data != [] && s.widthMinusOne == w && s.heightMinusOne == h
    ensures alpha == null <==> OnALPH(codecs, s, data) == Done(Malformed)
    ensures alpha != null ==>
      fresh(alpha) && OnALPH(codecs, s, data) == Next(s.(want := false, stride := stride, alpha := Some(alpha[..])))
  {
    alpha, stride := ReadAlpha(codecs, data[1..], w, h, Compression(data[0]));
    if alpha != null {
      PlaneHasWholeRows(codecs, data[1..], w, h, Compression(data[0]));
      UnfilterAlpha(alpha, stride, FilterOf(data[0]));
    }
  }

  /** The chunk loop computes the scan of all chunks. */
  method Decode(codecs: Codecs, chunks: seq<Chunk>, configOnly: bool) returns (answer: Answer)
    ensures answer == Scan(codecs, Start, chunks, configOnly)
    ensures if configOnly then ConfigOk(codecs, Known(chunks), answer) else ImageOk(codecs, Known(chunks), answer)
  {
    ScanAnswers(codecs, chunks);
    answer := DecodeChunks(codecs, chunks, configOnly);
  }

  method DecodeChunks(codecs: Codecs, chunks: seq<Chunk>, configOnly: bool) returns (answer: Answer)
    ensures answer == Scan(codecs, Start, chunks, configOnly)
  {
    var alpha: array?<Byte> := null;
    var stride: nat, want, seen := 0, false, false;
    var w: bv32, h: bv32 := 0, 0;
    ghost var s := Start;
    var i := 0;
    while i < |chunks|
      invariant 0 <= i <= |chunks|
      invariant alpha == null || fresh(alpha)
      invariant Agrees(s, alpha, stride, want, seen, w, h)
      invariant Scan(codecs, s, chunks[i..], configOnly) == Scan(codecs, Start, chunks, configOnly)
    {
      ghost var rest := chunks[i..];
      assert rest[0] == chunks[i] && rest[1..] == chunks[i + 1..];
      match chunks[i] {
        case ALPH(data) =>
          if !want { return Malformed; }
          if data == [] { return NoImage; }
          alpha, stride := TakeAlpha(codecs, s, data, w, h);
          if alpha == null { return Malformed; }
          want := false;
          s := s.(want := false, stride := stride, alpha := Some(alpha[..]));
        case VP8(size, data) =>
          if want || size >= 0x8000_0000 { return Malformed; }
          var header := codecs.lossyHeader(data);
          if header.None? { return Malformed; }
          if configOnly { return Config(YCbCr, header.value.0, header.value.1); }
          var frame := codecs.lossyFrame(data);
          if frame.None? { return Malformed; }
          if alpha != null { return Translucent(frame.value, alpha[..], stride); }
          return Solid(frame.value);
        case VP8L(data) =>
          return OnVP8L(codecs, alpha != null, data, configOnly);
        case VP8X(size, data) =>
          if seen || size != 10 || |data| < 10 { return Malformed; }
          seen, want := true, AlphaBit(data[0]);
          w, h := Bits24(data[4], data[5], data[6]), Bits24(data[7], data[8], data[9]);
          if configOnly { return Config(if want then NYCbCrA else YCbCr, w as nat + 1, h as nat + 1); }
          s := s.(seen := true, want := want, widthMinusOne := w, heightMinusOne := h);
        case Other =>
      }
      i := i + 1;
    }
    return Malformed;
  }
}
