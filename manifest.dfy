/**
 * The manifest model builder (the `MSS` constructor): from the attributed tree the XML
 * library produces to the typed presentation model, a header and the streams with their
 * quality levels. Reading a property of `undefined`, which throws in the source, is an
 * `Err` here, and no model is built then.
 */
module Manifest {
  import opened Wrappers
  import opened Js
  import Codec

  /**
   * An element of the tree the XML library yields with attributes kept and array mode on:
   * the attributes under their names prefixed with "@_", and every child element name
   * mapped to the list of those children, even when there is only one (leaf elements are
   * not covered: the library may leave those unwrapped).
   */
  datatype Node = Node(attributes: map<string, string>, children: map<string, seq<Node>>)

  /** `n["@_Name"]`: the attribute text, or `undefined`. */
  function Attr(n: Node, name: string): Option<string> {
    if name in n.attributes then Some(n.attributes[name]) else None
  }

  /** `parseInt(n[name], 10)`, None standing for NaN. */
  function IntAttr(n: Node, name: string): Option<int> {
    ParseInt(ToJsString(Attr(n, name)), 10)
  }

  /** `x || undefined` on a parsed number: NaN and 0 are both falsy, so both become absent. */
  function OrUndefined(x: Option<int>): (r: Option<int>)
    ensures r.None? <==> x.None? || x == Some(0)
    ensures r.Some? ==> r == x && r.value != 0
  {
    if x == Some(0) then None else x
  }

  /** `parseInt(n[name], 10) || undefined`. */
  function OptionalIntAttr(n: Node, name: string): Option<int> {
    OrUndefined(IntAttr(n, name))
  }

  datatype Header = Header(
    version: string,
    timescale: Option<int>,
    duration: Option<int>,
    isLive: bool,
    dvrWindowLength: Option<int>,
    lookAheadFragmentCount: Option<int>)

  datatype QualityLevel = QualityLevel(
    index: Option<string>,
    bitrate: Option<int>,
    fourCC: Option<string>,
    maxWidth: Option<int>,
    maxHeight: Option<int>,
    audioTag: Option<string>,
    channels: Option<int>,
    samplingRate: Option<int>,
    bitsPerSample: Option<int>,
    packetSize: Option<int>,
    codec: Option<string>)

  /** An entry of a stream's chunk list, which the builder reserves and never fills. */
  type ChunkEntry = ()

  datatype Stream = Stream(
    streamType: Option<string>,
    name: Option<string>,
    subType: Option<string>,
    chunks: Option<int>,
    maxWidth: Option<int>,
    maxHeight: Option<int>,
    displayWidth: Option<int>,
    displayHeight: Option<int>,
    url: Option<string>,
    chunkList: seq<ChunkEntry>,
    qualityLevels: seq<QualityLevel>)

  /** The built model: what the `header` and `streams` getters return. */
  datatype Mss = Mss(header: Header, streams: seq<Stream>)

  /** The header, read from the attributes of the root element. */
  function BuildHeader(root: Node): Header {
    Header(
      version := ToJsString(Attr(root, "@_MajorVersion")) + "." + ToJsString(Attr(root, "@_MinorVersion")),
      timescale := IntAttr(root, "@_TimeScale"),
      duration := IntAttr(root, "@_Duration"),
      isLive := Attr(root, "@_IsLive") == Some("TRUE"),
      dvrWindowLength := IntAttr(root, "@_DVRWindowLength"),
      lookAheadFragmentCount := IntAttr(root, "@_LookAheadFragmentCount"))
  }

  /** One `QualityLevel` element; only the codec decoder can throw. */
  function BuildQualityLevel(l: Node): Result<QualityLevel, TypeError> {
    var codec :- Codec.ParseCodecPrivateData(Attr(l, "@_FourCC"), Attr(l, "@_CodecPrivateData"));
    Ok(QualityLevel(
      index := Attr(l, "@_Index"),
      bitrate := IntAttr(l, "@_Bitrate"),
      fourCC := Attr(l, "@_FourCC"),
      maxWidth := OptionalIntAttr(l, "@_MaxWidth"),
      maxHeight := OptionalIntAttr(l, "@_MaxHeight"),
      audioTag := Attr(l, "@_AudioTag"),
      channels := OptionalIntAttr(l, "@_Channels"),
      samplingRate := OptionalIntAttr(l, "@_SamplingRate"),
      bitsPerSample := OptionalIntAttr(l, "@_BitsPerSample"),
      packetSize := OptionalIntAttr(l, "@_PacketSize"),
      codec := codec))
  }

  /** `n.Name.map(...)` reads `map` of `undefined` when there is no `Name` child. */
  function Children(n: Node, name: string): Result<seq<Node>, TypeError> {
    if name in n.children then Ok(n.children[name]) else Err(ReadOfUndefined("map"))
  }

  /** One `StreamIndex` element: its quality levels first, then its own attributes. */
  function BuildStream(s: Node): Result<Stream, TypeError> {
    var levelNodes :- Children(s, "QualityLevel");
    var levels :- MapOrThrow(BuildQualityLevel, levelNodes);
    Ok(Stream(
      streamType := Attr(s, "@_Type"),
      name := Attr(s, "@_Name"),
      subType := Attr(s, "@_Subtype"),
      chunks := IntAttr(s, "@_Chunks"),
      maxWidth := OptionalIntAttr(s, "@_MaxWidth"),
      maxHeight := OptionalIntAttr(s, "@_MaxHeight"),
      displayWidth := OptionalIntAttr(s, "@_DisplayWidth"),
      displayHeight := OptionalIntAttr(s, "@_DisplayHeight"),
      url := Attr(s, "@_Url"),
      chunkList := [],
      qualityLevels := levels))
  }

  /**
   * `jsonObj["SmoothStreamingMedia"][0]`: without that key the source reads `0` of
   * `undefined`; with an empty list it reads `@_MajorVersion` of `undefined`.
   */
  function Root(doc: Node): Result<Node, TypeError> {
    if "SmoothStreamingMedia" !in doc.children then Err(ReadOfUndefined("0"))
    else if |doc.children["SmoothStreamingMedia"]| == 0 then Err(ReadOfUndefined("@_MajorVersion"))
    else Ok(doc.children["SmoothStreamingMedia"][0])
  }

  /** `new MSS(jsonObj)`: the header, then every stream in document order. */
  function BuildMss(doc: Node): Result<Mss, TypeError> {
    var root :- Root(doc);
    var header := BuildHeader(root);
    var streamNodes :- Children(root, "StreamIndex");
    var streams :- MapOrThrow(BuildStream, streamNodes);
    Ok(Mss(header, streams))
  }

  // ---------------------------------------------------------------------------------
  // Properties

  /** A quality level whose decoder call throws: an AAC tag and no private data. */
  predicate IsAacLevelWithoutData(l: Node) {
    StartsWith(ToJsString(Attr(l, "@_FourCC")), "AAC") && "@_CodecPrivateData" !in l.attributes
  }

  /** The shape a stream needs: a level list whose AAC levels all carry private data. */
  predicate StreamShaped(s: Node) {
    "QualityLevel" in s.children
    && forall l :: l in s.children["QualityLevel"] ==> !IsAacLevelWithoutData(l)
  }

  /** The shape the builder needs: a root, its stream list, and every stream shaped. */
  predicate WellShaped(doc: Node) {
    "SmoothStreamingMedia" in doc.children && |doc.children["SmoothStreamingMedia"]| > 0
    && var root := doc.children["SmoothStreamingMedia"][0];
       "StreamIndex" in root.children
       && forall s :: s in root.children["StreamIndex"] ==> StreamShaped(s)
  }

  lemma QualityLevelSucceeds(l: Node)
    ensures BuildQualityLevel(l).Ok? <==> !IsAacLevelWithoutData(l)
  {
    Codec.CodecThrowsOnlyForAacWithoutData(Attr(l, "@_FourCC"), Attr(l, "@_CodecPrivateData"));
  }

  /** With a root and a stream list, the build succeeds or fails as the streams do. */
  lemma BuildMssOfStreams(doc: Node)
    requires "SmoothStreamingMedia" in doc.children && |doc.children["SmoothStreamingMedia"]| > 0
    requires "StreamIndex" in doc.children["SmoothStreamingMedia"][0].children
    ensures var root := doc.children["SmoothStreamingMedia"][0];
            var streams := MapOrThrow(BuildStream, root.children["StreamIndex"]);
            (BuildMss(doc).Ok? <==> streams.Ok?)
            && (BuildMss(doc).Ok? ==> BuildMss(doc).value == Mss(BuildHeader(root), streams.value))
  {
  }

  /** With a level list, a stream succeeds or fails as its levels do. */
  lemma BuildStreamOfLevels(s: Node)
    requires "QualityLevel" in s.children
    ensures var levels := MapOrThrow(BuildQualityLevel, s.children["QualityLevel"]);
            (BuildStream(s).Ok? <==> levels.Ok?)
            && (BuildStream(s).Ok? ==> BuildStream(s).value.qualityLevels == levels.value
                                       && BuildStream(s).value.chunkList == [])
  {
  }

  /** Mapping a throwing callback over a list succeeds exactly when it succeeds on every member. */
  lemma MapOrThrowOkOnMembers<A, B>(f: A -> Result<B, TypeError>, xs: seq<A>)
    ensures MapOrThrow(f, xs).Ok? <==> forall x :: x in xs ==> f(x).Ok?
  {
    if MapOrThrow(f, xs).Ok? {
      forall x | x in xs ensures f(x).Ok? {
        var i :| 0 <= i < |xs| && xs[i] == x;
      }
    }
  }

  lemma StreamSucceeds(s: Node)
    ensures BuildStream(s).Ok? <==> StreamShaped(s)
  {
    if "QualityLevel" in s.children {
      var ls := s.children["QualityLevel"];
      assert BuildStream(s).Ok? <==> MapOrThrow(BuildQualityLevel, ls).Ok? by {
        BuildStreamOfLevels(s);
      }
      assert MapOrThrow(BuildQualityLevel, ls).Ok? <==> forall l :: l in ls ==> BuildQualityLevel(l).Ok? by {
        MapOrThrowOkOnMembers(BuildQualityLevel, ls);
      }
      forall l | l in ls {
        QualityLevelSucceeds(l);
      }
    } else {
      assert BuildStream(s).Err?;
    }
  }

  /** The build fails exactly when the tree lacks the shape the source reads without checking. */
  lemma BuildSucceedsIffWellShaped(doc: Node)
    ensures BuildMss(doc).Ok? <==> WellShaped(doc)
  {
    if "SmoothStreamingMedia" in doc.children && |doc.children["SmoothStreamingMedia"]| > 0 {
      var root := doc.children["SmoothStreamingMedia"][0];
      if "StreamIndex" in root.children {
        var ss := root.children["StreamIndex"];
        assert BuildMss(doc).Ok? <==> MapOrThrow(BuildStream, ss).Ok? by {
          BuildMssOfStreams(doc);
        }
        assert MapOrThrow(BuildStream, ss).Ok? <==> forall s :: s in ss ==> BuildStream(s).Ok? by {
          MapOrThrowOkOnMembers(BuildStream, ss);
        }
        forall s | s in ss {
          StreamSucceeds(s);
        }
      } else {
        assert BuildMss(doc).Err?;
      }
    } else {
      assert BuildMss(doc).Err?;
    }
  }

  /** A built quality level carries what the decoder returned for its tag and private data. */
  lemma BuiltLevelCodec(l: Node, q: QualityLevel)
    requires BuildQualityLevel(l) == Ok(q)
    ensures Codec.ParseCodecPrivateData(Attr(l, "@_FourCC"), Attr(l, "@_CodecPrivateData")) == Ok(q.codec)
  {
  }

  /** One stream of a built model: its chunk list is empty and each level carries its decoder's codec. */
  lemma BuiltStreamStructure(s: Node, st: Stream)
    requires BuildStream(s) == Ok(st)
    ensures "QualityLevel" in s.children
    ensures var ls := s.children["QualityLevel"];
            st.chunkList == []
            && |st.qualityLevels| == |ls|
            && forall k :: 0 <= k < |ls| ==>
                 BuildQualityLevel(ls[k]) == Ok(st.qualityLevels[k])
                 && Codec.ParseCodecPrivateData(Attr(ls[k], "@_FourCC"), Attr(ls[k], "@_CodecPrivateData"))
                      == Ok(st.qualityLevels[k].codec)
  {
    assert "QualityLevel" in s.children;
    var ls := s.children["QualityLevel"];
    assert st.qualityLevels == MapOrThrow(BuildQualityLevel, ls).value && st.chunkList == [] by {
      BuildStreamOfLevels(s);
    }
    forall k | 0 <= k < |ls|
      ensures BuildQualityLevel(ls[k]) == Ok(st.qualityLevels[k])
      ensures Codec.ParseCodecPrivateData(Attr(ls[k], "@_FourCC"), Attr(ls[k], "@_CodecPrivateData"))
                == Ok(st.qualityLevels[k].codec)
    {
      assert BuildQualityLevel(ls[k]) == Ok(st.qualityLevels[k]);
      BuiltLevelCodec(ls[k], st.qualityLevels[k]);
    }
  }

  /**
   * A built model has one stream per `StreamIndex` element in document order, each with one
   * quality level per `QualityLevel` child in order, each level carrying the decoder's codec
   * string, and every chunk list empty.
   */
  lemma BuildPreservesStructure(doc: Node)
    requires BuildMss(doc).Ok?
    ensures var root := doc.children["SmoothStreamingMedia"][0];
            var ss := root.children["StreamIndex"];
            var m := BuildMss(doc).value;
            m.header == BuildHeader(root)
            && |m.streams| == |ss|
            && forall i :: 0 <= i < |ss| ==>
                 var ls := ss[i].children["QualityLevel"];
                 BuildStream(ss[i]) == Ok(m.streams[i])
                 && m.streams[i].chunkList == []
                 && |m.streams[i].qualityLevels| == |ls|
                 && forall k :: 0 <= k < |ls| ==>
                      var l := ls[k];
                      BuildQualityLevel(l) == Ok(m.streams[i].qualityLevels[k])
                      && Codec.ParseCodecPrivateData(Attr(l, "@_FourCC"), Attr(l, "@_CodecPrivateData"))
                           == Ok(m.streams[i].qualityLevels[k].codec)
  {
    assert "SmoothStreamingMedia" in doc.children && |doc.children["SmoothStreamingMedia"]| > 0;
    var root := doc.children["SmoothStreamingMedia"][0];
    assert "StreamIndex" in root.children;
    var ss := root.children["StreamIndex"];
    var m := BuildMss(doc).value;
    assert m == Mss(BuildHeader(root), MapOrThrow(BuildStream, ss).value) by {
      BuildMssOfStreams(doc);
    }
    forall i | 0 <= i < |ss|
      ensures "QualityLevel" in ss[i].children
      ensures BuildStream(ss[i]) == Ok(m.streams[i])
      ensures var ls := ss[i].children["QualityLevel"];
              m.streams[i].chunkList == []
              && |m.streams[i].qualityLevels| == |ls|
              && forall k :: 0 <= k < |ls| ==>
                   BuildQualityLevel(ls[k]) == Ok(m.streams[i].qualityLevels[k])
                   && Codec.ParseCodecPrivateData(Attr(ls[k], "@_FourCC"), Attr(ls[k], "@_CodecPrivateData"))
                        == Ok(m.streams[i].qualityLevels[k].codec)
    {
      assert BuildStream(ss[i]) == Ok(m.streams[i]);
      BuiltStreamStructure(ss[i], m.streams[i]);
    }
  }

  /** A decimal attribute reads back as its number; `|| undefined` then drops only a zero. */
  lemma IntAttrOfDecimal(n: Node, name: string, v: nat, rest: string)
    requires Attr(n, name) == Some(NatToString(v) + rest)
    requires rest == [] || !('0' <= rest[0] <= '9')
    ensures IntAttr(n, name) == Some(v)
    ensures OptionalIntAttr(n, name) == if v == 0 then None else Some(v)
  {
    ParseIntOfDecimal(v, rest);
  }

  /** A missing attribute parses as NaN: absent, with or without `|| undefined`. */
  lemma IntAttrOfMissing(n: Node, name: string)
    requires name !in n.attributes
    ensures IntAttr(n, name) == None && OptionalIntAttr(n, name) == None
  {
    ParseIntOfUndefined(10);
  }

  /** `field` is `parseInt(...) || undefined` of `parsed`: absent exactly on NaN or 0, the number otherwise. */
  predicate AbsentWhenFalsy(field: Option<int>, parsed: Option<int>) {
    (field.None? <==> parsed.None? || parsed == Some(0)) && (field.Some? ==> field == parsed)
  }

  /**
   * The numeric fields of a quality level: the bitrate is the raw parse, and every field
   * written with `|| undefined` is absent when its attribute fails to parse or parses to 0.
   */
  lemma QualityLevelNumbers(l: Node)
    requires BuildQualityLevel(l).Ok?
    ensures var q := BuildQualityLevel(l).value;
            q.bitrate == IntAttr(l, "@_Bitrate")
            && AbsentWhenFalsy(q.maxWidth, IntAttr(l, "@_MaxWidth"))
            && AbsentWhenFalsy(q.maxHeight, IntAttr(l, "@_MaxHeight"))
            && AbsentWhenFalsy(q.channels, IntAttr(l, "@_Channels"))
            && AbsentWhenFalsy(q.samplingRate, IntAttr(l, "@_SamplingRate"))
            && AbsentWhenFalsy(q.bitsPerSample, IntAttr(l, "@_BitsPerSample"))
            && AbsentWhenFalsy(q.packetSize, IntAttr(l, "@_PacketSize"))
  {
  }

  /** The same for a stream: the chunk count is the raw parse, the sizes fall back to absent. */
  lemma StreamNumbers(s: Node)
    requires BuildStream(s).Ok?
    ensures var st := BuildStream(s).value;
            st.chunks == IntAttr(s, "@_Chunks")
            && AbsentWhenFalsy(st.maxWidth, IntAttr(s, "@_MaxWidth"))
            && AbsentWhenFalsy(st.maxHeight, IntAttr(s, "@_MaxHeight"))
            && AbsentWhenFalsy(st.displayWidth, IntAttr(s, "@_DisplayWidth"))
            && AbsentWhenFalsy(st.displayHeight, IntAttr(s, "@_DisplayHeight"))
  {
  }

  /** Liveness holds exactly for the attribute text "TRUE"; case variants such as "true" are not live. */
  lemma LivenessIsExact(root: Node)
    ensures BuildHeader(root).isLive <==> Attr(root, "@_IsLive") == Some("TRUE")
    ensures Attr(root, "@_IsLive") == Some("true") ==> !BuildHeader(root).isLive
  {
    assert "true" != "TRUE" by {
      assert "true"[0] != "TRUE"[0];
    }
  }

  /** The version joins the major and minor version texts with a dot; a missing one reads "undefined". */
  lemma VersionJoinsAttributes(root: Node, major: string, minor: string)
    ensures Attr(root, "@_MajorVersion") == Some(major) && Attr(root, "@_MinorVersion") == Some(minor)
            ==> BuildHeader(root).version == major + "." + minor
    ensures "@_MajorVersion" !in root.attributes ==> StartsWith(BuildHeader(root).version, "undefined.")
  {
    var v := BuildHeader(root).version;
    if "@_MajorVersion" !in root.attributes {
      assert v[..10] == "undefined.";
    }
  }

  /**
   * The header numbers are raw parses with no fallback: each field is exactly what
   * `parseInt(..., 10)` gives for its attribute, NaN included, so a decimal text gives its
   * number, 0 included.
   */
  lemma HeaderNumbersHaveNoFallback(root: Node, v: nat)
    ensures BuildHeader(root).timescale == IntAttr(root, "@_TimeScale")
    ensures BuildHeader(root).duration == IntAttr(root, "@_Duration")
    ensures BuildHeader(root).dvrWindowLength == IntAttr(root, "@_DVRWindowLength")
    ensures BuildHeader(root).lookAheadFragmentCount == IntAttr(root, "@_LookAheadFragmentCount")
    ensures Attr(root, "@_TimeScale") == Some(NatToString(v)) ==> BuildHeader(root).timescale == Some(v)
    ensures Attr(root, "@_Duration") == Some(NatToString(v)) ==> BuildHeader(root).duration == Some(v)
    ensures Attr(root, "@_DVRWindowLength") == Some(NatToString(v)) ==> BuildHeader(root).dvrWindowLength == Some(v)
    ensures Attr(root, "@_LookAheadFragmentCount") == Some(NatToString(v))
            ==> BuildHeader(root).lookAheadFragmentCount == Some(v)
  {
    var text := NatToString(v);
    assert text + "" == text;
    if Attr(root, "@_TimeScale") == Some(text) {
      IntAttrOfDecimal(root, "@_TimeScale", v, "");
    }
    if Attr(root, "@_Duration") == Some(text) {
      IntAttrOfDecimal(root, "@_Duration", v, "");
    }
    if Attr(root, "@_DVRWindowLength") == Some(text) {
      IntAttrOfDecimal(root, "@_DVRWindowLength", v, "");
    }
    if Attr(root, "@_LookAheadFragmentCount") == Some(text) {
      IntAttrOfDecimal(root, "@_LookAheadFragmentCount", v, "");
    }
  }

  /**
   * The shape the tests check: a live manifest with a video stream of one H.264 level and an
   * audio stream of one AAC level, both carrying private data, builds a live model with two
   * streams whose levels carry "avc1." and the profile after the SPS marker, and "mp4a.40.2".
   */
  lemma LiveManifestWithTwoStreams(doc: Node, root: Node, video: Node, h264: Node, sps: string, audio: Node, aac: Node, config: string)
    requires "SmoothStreamingMedia" in doc.children && doc.children["SmoothStreamingMedia"] == [root]
    requires Attr(root, "@_IsLive") == Some("TRUE")
    requires "StreamIndex" in root.children && root.children["StreamIndex"] == [video, audio]
    requires "QualityLevel" in video.children && video.children["QualityLevel"] == [h264]
    requires Attr(h264, "@_FourCC") == Some("H264") && Attr(h264, "@_CodecPrivateData") == Some(sps)
    requires Codec.IsSpsMarkerAt(sps, 0)
    requires "QualityLevel" in audio.children && audio.children["QualityLevel"] == [aac]
    requires Attr(aac, "@_FourCC") == Some("AACL") && Attr(aac, "@_CodecPrivateData") == Some(config)
    requires |config| >= 2 && config[0] == '1' && config[1] == '2'
    ensures BuildMss(doc).Ok?
    ensures var m := BuildMss(doc).value;
            m.header.isLive && |m.streams| == 2
            && |m.streams[0].qualityLevels| == 1 && |m.streams[1].qualityLevels| == 1
            && m.streams[0].qualityLevels[0].codec == Some("avc1." + sps[10..Min(16, |sps|)])
            && m.streams[1].qualityLevels[0].codec == Some("mp4a.40.2")
  {
    assert StartsWith("AACL", "AAC");
    assert Codec.ParseCodecPrivateData(Some("H264"), Some(sps)) == Ok(Some("avc1." + sps[10..Min(16, |sps|)])) by {
      Codec.H264CodecFromFirstMarker(sps, 0);
    }
    assert Codec.ParseCodecPrivateData(Some("AACL"), Some(config)) == Ok(Some("mp4a.40.2")) by {
      Codec.AacLowComplexityExample("AACL", config);
    }
    assert !IsAacLevelWithoutData(h264) && !IsAacLevelWithoutData(aac);
    assert WellShaped(doc);
    BuildSucceedsIffWellShaped(doc);
    BuildPreservesStructure(doc);
  }
}
