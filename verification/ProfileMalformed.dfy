/** Where decoding of written events fails: at the first conflict range that is no range of any key. */
module ProfileMalformed {
  import opened ByteStrings
  import opened Digits
  import opened ProfileDecoding
  import opened ProfileRoundTrip
  import opened Sequences
  import opened Wrappers

  /** A conflict range, and where its bytes are. */
  datatype Placed = Placed(at: nat, range: WireRange)

  function PlacedRanges(ws: seq<WireRange>, p: nat): seq<Placed> {
    if ws == [] then []
    else [Placed(p, ws[0])] + PlacedRanges(ws[1..], p + |EncodeRange(WrittenRange(ws[0]))|)
  }

  function PlacedInRequest(w: WireRequest, p: nat): seq<Placed> {
    PlacedRanges(w.readConflictRanges, p + 4)
    + PlacedRanges(w.writeConflictRanges, p + 4 + |EncodeRanges(w.readConflictRanges)| + 4)
  }

  function PlacedInBody(w: WireEvent, p: nat): seq<Placed> {
    if w.Commit? || w.CommitError? then PlacedInRequest(w.request, p + BeforeRequest(w)) else []
  }

  /** The conflict ranges of events that begin at a position, in the order of their bytes. */
  function PlacedIn(ws: seq<WireEvent>, version: u64, p: nat): seq<Placed> {
    if ws == [] then []
    else PlacedInBody(ws[0], BodyOffset(ws[0], p)) + PlacedIn(ws[1..], version, p + |EncodeEvent(ws[0], version)|)
  }

  /** What looks like a compact range but is not the end of a single key's. */
  predicate IsMalformed(w: WireRange) {
    var range := WrittenRange(w);
    range.end == [] && range.begin != [] && range.begin[|range.begin| - 1] != 0
  }

  function FirstMalformed(ps: seq<Placed>): Option<nat> {
    if ps == [] then None
    else if IsMalformed(ps[0].range) then Some(ps[0].at)
    else FirstMalformed(ps[1..])
  }

  lemma {:induction false} FirstOfConcat(ps: seq<Placed>, more: seq<Placed>)
    ensures FirstMalformed(ps + more)
         == if FirstMalformed(ps).Some? then FirstMalformed(ps) else FirstMalformed(more)
  {
    hide IsMalformed;
    if ps == [] {
      Empty(more);
    } else {
      TailOfConcat(ps, more);
      FirstOfConcat(ps[1..], more);
    }
  }

  /** Reading succeeds when no range is malformed, and else fails at the position of the first one. */
  predicate FailsAt<T>(r: Result<T, DecodeError>, first: Option<nat>) {
    match first
    case None => r.Ok?
    case Some(at) => r == Err(MalformedKeyRange(at))
  }

  lemma {:induction false} RangesFail(ws: seq<WireRange>, p: nat)
    ensures FailsAt(ReadRanges(ws, p), FirstMalformed(PlacedRanges(ws, p)))
  {
    hide EncodeRange;
    if ws != [] {
      var q := p + |EncodeRange(WrittenRange(ws[0]))|;
      RangesFail(ws[1..], q);
      TailOfConcat([Placed(p, ws[0])], PlacedRanges(ws[1..], q));
      Empty(PlacedRanges(ws[1..], q));
    }
  }

  lemma RequestFails(w: WireRequest, version: u64, p: nat)
    ensures FailsAt(ReadRequest(w, version, p), FirstMalformed(PlacedInRequest(w, p)))
  {
    hide ReadRanges, PlacedRanges, FirstMalformed, EncodeRanges;
    var q := p + 4 + |EncodeRanges(w.readConflictRanges)| + 4;
    RangesFail(w.readConflictRanges, p + 4);
    RangesFail(w.writeConflictRanges, q);
    FirstOfConcat(PlacedRanges(w.readConflictRanges, p + 4), PlacedRanges(w.writeConflictRanges, q));
  }

  lemma BodyFails(w: WireEvent, version: u64, p: nat)
    ensures FailsAt(ReadBody(w, version, p), FirstMalformed(PlacedInBody(w, p)))
  {
    hide ReadRequest, PlacedInRequest;
    if w.Commit? || w.CommitError? {
      RequestFails(w.request, version, p + BeforeRequest(w));
    }
  }

  lemma {:induction false} EventsFail(ws: seq<WireEvent>, version: u64, p: nat)
    ensures FailsAt(ReadEvents(ws, version, p), FirstMalformed(PlacedIn(ws, version, p)))
  {
    hide ReadBody, PlacedInBody, EncodeEvent, BodyOffset;
    if ws != [] {
      var q := p + |EncodeEvent(ws[0], version)|;
      BodyFails(ws[0], version, BodyOffset(ws[0], p));
      EventsFail(ws[1..], version, q);
      FirstOfConcat(PlacedInBody(ws[0], BodyOffset(ws[0], p)), PlacedIn(ws[1..], version, q));
    }
  }

  /** A blob decodes exactly when it has no malformed conflict range, and else fails at the first one. */
  lemma BlobFailsAtFirstMalformed(version: u64, ws: seq<WireEvent>)
    requires IsSupported(version) && forall i :: 0 <= i < |ws| ==> WritableEvent(ws[i])
    ensures FailsAt(Decoded(EncodeBlob(version, ws)), FirstMalformed(PlacedIn(ws, version, 8)))
  {
    hide EncodeBlob, Decoded, WritableEvent, ReadEvents, PlacedIn, FirstMalformed;
    BlobReadsAs(version, ws);
    EventsFail(ws, version, 8);
  }

  // ---------- the positions ----------

  /** The bytes of every range are where it is placed. */
  ghost predicate AreThere(b: bytes, ps: seq<Placed>) {
    forall i :: 0 <= i < |ps| ==> At(b, ps[i].at, EncodeRange(WrittenRange(ps[i].range)))
  }

  lemma ThereConcat(b: bytes, ps: seq<Placed>, more: seq<Placed>)
    requires AreThere(b, ps) && AreThere(b, more)
    ensures AreThere(b, ps + more)
  {
    hide At, EncodeRange;
  }

  lemma {:induction false} RangesAreThere(b: bytes, p: nat, ws: seq<WireRange>)
    requires At(b, p, EncodeRanges(ws))
    ensures AreThere(b, PlacedRanges(ws, p))
    decreases |ws|
  {
    hide At, EncodeRange;
    if ws != [] {
      var e := EncodeRange(WrittenRange(ws[0]));
      AtConcat(b, p, e, EncodeRanges(ws[1..]));
      RangesAreThere(b, p + |e|, ws[1..]);
      ThereConcat(b, [Placed(p, ws[0])], PlacedRanges(ws[1..], p + |e|));
    }
  }

  lemma RequestIsThere(b: bytes, p: nat, w: WireRequest, version: u64)
    requires At(b, p, EncodeRequest(w, version))
    ensures AreThere(b, PlacedInRequest(w, p))
  {
    hide At, EncodeRequest, EncodeRanges, EncodeMutations, PlacedRanges, EncodeScalars, LittleEndian, AreThere;
    var q := p + 4 + |EncodeRanges(w.readConflictRanges)| + 4;
    RequestFields(b, p, w, version);
    RangesAreThere(b, p + 4, w.readConflictRanges);
    RangesAreThere(b, q, w.writeConflictRanges);
    ThereConcat(b, PlacedRanges(w.readConflictRanges, p + 4), PlacedRanges(w.writeConflictRanges, q));
  }

  lemma BodyIsThere(b: bytes, p: nat, w: WireEvent, version: u64)
    requires At(b, p, EncodeBody(w, version))
    ensures AreThere(b, PlacedInBody(w, p))
  {
    hide At, EncodeRequest, LittleEndian, EncodeI32, EncodeI64, PlacedInRequest;
    if w.Commit? {
      CommitFields(b, p, w, version);
      RequestIsThere(b, p + 24, w.request, version);
    } else if w.CommitError? {
      SizeOfI32(w.errorCode);
      AtConcat(b, p, EncodeI32(w.errorCode), EncodeRequest(w.request, version));
      RequestIsThere(b, p + 4, w.request, version);
    }
  }

  lemma {:induction false} PlacedAreThere(b: bytes, p: nat, ws: seq<WireEvent>, version: u64)
    requires At(b, p, EncodeEvents(ws, version))
    ensures AreThere(b, PlacedIn(ws, version, p))
    decreases |ws|
  {
    hide At, EncodeI32, EncodeHeader, EncodeBody, PlacedInBody, AreThere;
    if ws == [] {
      NothingPlaced(b);
    } else {
      var w := ws[0];
      var code, header, body := EncodeI32(EventCode(w)), EncodeHeader(w.header), EncodeBody(w, version);
      var q := p + |EncodeEvent(w, version)|;
      AtConcat(b, p, EncodeEvent(w, version), EncodeEvents(ws[1..], version));
      AtConcat(b, p, code, header + body);
      AtConcat(b, p + |code|, header, body);
      SizeOfI32(EventCode(w));
      BodyIsThere(b, BodyOffset(w, p), w, version);
      PlacedAreThere(b, q, ws[1..], version);
      ThereConcat(b, PlacedInBody(w, BodyOffset(w, p)), PlacedIn(ws[1..], version, q));
    }
  }

  lemma NothingPlaced(b: bytes)
    ensures AreThere(b, [])
  {
  }
}
