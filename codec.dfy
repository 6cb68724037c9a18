/**
 * The codec descriptor decoder: from a quality level's FourCC tag and its hex-encoded
 * codec private data to an RFC 6381 style codec string such as "avc1.640028" or "mp4a.40.2".
 */
module Codec {
  import opened Wrappers
  import opened Js

  /** The pattern /00000001[0-9]7/ matches `s` at position `i`: an H.264 start code followed by an SPS NAL header. */
  predicate IsSpsMarkerAt(s: string, i: int) {
    0 <= i && i + 10 <= |s| && s[i..i + 8] == "00000001" && '0' <= s[i + 8] <= '9' && s[i + 9] == '7'
  }

  /** The leftmost match of /00000001[0-9]7/ at or after `from`, as `RegExp.prototype.exec` finds it. */
  function FindSpsMarker(s: string, from: nat): (r: Option<nat>)
    ensures r.Some? ==> from <= r.value && IsSpsMarkerAt(s, r.value)
                        && forall j :: from <= j < r.value ==> !IsSpsMarkerAt(s, j)
    ensures r.None? ==> forall j :: from <= j ==> !IsSpsMarkerAt(s, j)
    decreases |s| - from
  {
    if from + 10 > |s| then None
    else if IsSpsMarkerAt(s, from) then Some(from)
    else FindSpsMarker(s, from + 1)
  }

  /**
   * `(b & 0xF8) >> 3` on the number `b`: ToInt32 of `b` (NaN becomes 0), masked with 0xF8.
   * The mask clears the sign bit, so the result is non-negative and the arithmetic shift
   * by 3 is a division by 8.
   */
  function AacObjectType(b: Option<int>): (t: nat)
    ensures t < 32
  {
    BitAnd(ToUint32(b), 0xF8) / 8
  }

  /** The audio object type of AAC private data: its first two characters read as hex, then masked and shifted. */
  function AacObjectTypeOf(privateData: string): nat {
    AacObjectType(ParseInt(Substr(privateData, 0, 2), 16))
  }

  /** The AAC branch of the decoder. */
  function AacCodecString(privateData: string): string {
    "mp4a.40." + NatToString(AacObjectTypeOf(privateData))
  }

  /**
   * `MSS.parseCodePrivateData(fourCC, codecPrivateData)`. Absent arguments are `undefined`.
   * For "H264" the codec is "avc1." followed by the six characters ten places after the
   * first SPS marker, or "avc1.undefined" without a marker. For a tag starting with "AAC"
   * it is "mp4a.40." and the audio object type; reading `substr` of an absent private
   * data throws. Any other tag gives `undefined` (None).
   */
  function ParseCodecPrivateData(fourCC: Option<string>, codecPrivateData: Option<string>)
    : Result<Option<string>, TypeError>
  {
    if fourCC == Some("H264") then
      var s := ToJsString(codecPrivateData);
      match FindSpsMarker(s, 0)
      case None => Ok(Some("avc1." + ToJsString(None)))
      case Some(m) =>
        var nalHeader := s[m..m + 10];
        Ok(Some("avc1." + Substr(s, IndexOf(s, nalHeader) + 10, 6)))
    else if StartsWith(ToJsString(fourCC), "AAC") then
      match codecPrivateData
      case None => Err(ReadOfUndefined("substr"))
      case Some(s) => Ok(Some(AacCodecString(s)))
    else
      Ok(None)
  }

  /** `indexOf` of the matched text finds the match itself: an earlier copy would be an earlier match. */
  lemma IndexOfFirstMarker(s: string, m: nat)
    requires IsSpsMarkerAt(s, m)
    requires forall j :: 0 <= j < m ==> !IsSpsMarkerAt(s, j)
    ensures IndexOf(s, s[m..m + 10]) == m
  {
    var t := s[m..m + 10];
    assert OccursAt(s, t, m);
    var r := IndexOf(s, t);
    assert 0 <= r <= m;
    assert s[r..r + 10] == t;
    assert s[r..r + 8] == s[r..r + 10][..8];
    assert s[m..m + 8] == t[..8];
    assert s[r + 8] == t[8] == s[m + 8];
    assert s[r + 9] == t[9] == s[m + 9];
    assert IsSpsMarkerAt(s, r);
  }

  /** H264 with an SPS marker: "avc1." and the up-to-six characters ten places after the first marker. */
  lemma H264CodecFromFirstMarker(privateData: string, i: nat)
    requires IsSpsMarkerAt(privateData, i)
    requires forall j :: 0 <= j < i ==> !IsSpsMarkerAt(privateData, j)
    ensures ParseCodecPrivateData(Some("H264"), Some(privateData))
            == Ok(Some("avc1." + privateData[i + 10..Min(i + 16, |privateData|)]))
  {
    assert FindSpsMarker(privateData, 0) == Some(i);
    IndexOfFirstMarker(privateData, i);
  }

  /** The profile triplet has at most six characters, and exactly six when the text goes on that far. */
  lemma H264ProfileLength(privateData: string, i: nat)
    requires IsSpsMarkerAt(privateData, i)
    requires forall j :: 0 <= j < i ==> !IsSpsMarkerAt(privateData, j)
    ensures var c := ParseCodecPrivateData(Some("H264"), Some(privateData));
            c.Ok? && c.value.Some? && StartsWith(c.value.value, "avc1.")
            && |c.value.value| == 5 + Min(6, |privateData| - (i + 10))
  {
    H264CodecFromFirstMarker(privateData, i);
    var c := "avc1." + privateData[i + 10..Min(i + 16, |privateData|)];
    assert c[..5] == "avc1.";
  }

  /** An SPS marker at the start: "0000000167640028..." gives the profile triplet "640028". */
  lemma H264Example(rest: string)
    ensures ParseCodecPrivateData(Some("H264"), Some("0000000167640028" + rest)) == Ok(Some("avc1.640028"))
  {
    var s := "0000000167640028" + rest;
    assert s[..8] == "00000001" && s[8] == '6' && s[9] == '7';
    assert IsSpsMarkerAt(s, 0);
    H264CodecFromFirstMarker(s, 0);
    assert Min(0 + 16, |s|) == 16;
    assert s[10..16] == "640028";
    assert "avc1." + "640028" == "avc1.640028";
  }

  /** H264 without an SPS marker, or without private data at all, yields the literal "avc1.undefined". */
  lemma H264CodecWithoutMarker(codecPrivateData: Option<string>)
    requires codecPrivateData.Some? ==> forall j :: 0 <= j ==> !IsSpsMarkerAt(codecPrivateData.value, j)
    ensures ParseCodecPrivateData(Some("H264"), codecPrivateData) == Ok(Some("avc1.undefined"))
  {
    assert "avc1." + ToJsString(None) == "avc1.undefined";
  }

  /** The object type is bits 3 to 7 of the low byte of the parsed number (0 for NaN). */
  lemma AacObjectTypeIsHighBits(b: Option<int>)
    ensures AacObjectType(b) == (b.GetOr(0) % 256) / 8
  {
    var u := ToUint32(b);
    var k := (u / 8) % 32;
    assert AacObjectType(b) == k by {
      BitAndF8(u);
      DivideMultiple(k);
    }
    assert k == (u % 256) / 8 by {
      LowByteDivision(u);
    }
    ToUint32LowByte(b);
  }

  lemma DivideMultiple(k: nat)
    ensures (8 * k) / 8 == k
  {
  }

  lemma LowByteDivision(u: nat)
    ensures (u / 8) % 32 == (u % 256) / 8
  {
    assert u == 256 * (u / 256) + u % 256;
    assert u / 8 == 32 * (u / 256) + (u % 256) / 8;
  }

  lemma AacTagIsNotH264(fourCC: string)
    requires StartsWith(fourCC, "AAC")
    ensures Some(fourCC) != Some("H264") && StartsWith(ToJsString(Some(fourCC)), "AAC")
  {
    assert fourCC[0] == 'A';
  }

  /** A tag starting with "AAC" is never "H264", so the AAC branch is taken. */
  lemma AacBranch(fourCC: string, privateData: string)
    requires StartsWith(fourCC, "AAC")
    ensures ParseCodecPrivateData(Some(fourCC), Some(privateData)) == Ok(Some(AacCodecString(privateData)))
  {
    AacTagIsNotH264(fourCC);
  }

  /**
   * A tag starting with "AAC" and present private data: "mp4a.40." and the decimal object
   * type of the first two characters read as hex (0 when they do not parse), which lies in 0..31.
   */
  lemma AacCodec(fourCC: string, privateData: string)
    requires StartsWith(fourCC, "AAC")
    ensures var b := ParseInt(Substr(privateData, 0, 2), 16);
            var t := (b.GetOr(0) % 256) / 8;
            0 <= t < 32
            && ParseCodecPrivateData(Some(fourCC), Some(privateData)) == Ok(Some("mp4a.40." + NatToString(t)))
  {
    AacBranch(fourCC, privateData);
    AacObjectTypeIsHighBits(ParseInt(Substr(privateData, 0, 2), 16));
  }

  /** A value below 256 is its own low byte, so the object type is its top five bits. */
  lemma AacObjectTypeOfByte(v: nat)
    requires v < 256
    ensures AacObjectType(Some(v)) == v / 8
  {
    AacObjectTypeIsHighBits(Some(v));
    assert Some(v).GetOr(0) % 256 == v;
  }

  /** The first two characters, when both are hex digits, parse as the byte they spell. */
  lemma FirstHexPair(privateData: string)
    requires |privateData| >= 2 && IsDigit(privateData[0], 16) && IsDigit(privateData[1], 16)
    ensures ParseInt(Substr(privateData, 0, 2), 16) == Some(16 * DigitValue(privateData[0]) + DigitValue(privateData[1]))
  {
    SubstrPrefix(privateData, 2);
    ParseIntOfHexPrefix(privateData);
  }

  lemma ObjectTypeOfParsedByte(privateData: string, b: Option<int>)
    requires ParseInt(Substr(privateData, 0, 2), 16) == b
    ensures AacObjectTypeOf(privateData) == AacObjectType(b)
  {
  }

  lemma AacObjectTypeOfHexByte(privateData: string)
    requires |privateData| >= 2 && IsDigit(privateData[0], 16) && IsDigit(privateData[1], 16)
    ensures AacObjectTypeOf(privateData) == (16 * DigitValue(privateData[0]) + DigitValue(privateData[1])) / 8
  {
    var v := 16 * DigitValue(privateData[0]) + DigitValue(privateData[1]);
    assert v < 256;
    FirstHexPair(privateData);
    ObjectTypeOfParsedByte(privateData, Some(v));
    AacObjectTypeOfByte(v);
  }

  /** When the first byte is two hex digits, the object type is that byte shifted right by three. */
  lemma AacCodecOfHexByte(fourCC: string, privateData: string)
    requires StartsWith(fourCC, "AAC")
    requires |privateData| >= 2 && IsDigit(privateData[0], 16) && IsDigit(privateData[1], 16)
    ensures ParseCodecPrivateData(Some(fourCC), Some(privateData))
            == Ok(Some("mp4a.40." + NatToString((16 * DigitValue(privateData[0]) + DigitValue(privateData[1])) / 8)))
  {
    AacBranch(fourCC, privateData);
    AacObjectTypeOfHexByte(privateData);
  }

  /** AAC-LC: private data starting with the byte 0x12 (as in "1210") has object type 2, "mp4a.40.2". */
  lemma AacLowComplexityExample(fourCC: string, privateData: string)
    requires StartsWith(fourCC, "AAC")
    requires |privateData| >= 2 && privateData[0] == '1' && privateData[1] == '2'
    ensures ParseCodecPrivateData(Some(fourCC), Some(privateData)) == Ok(Some("mp4a.40.2"))
  {
    AacBranch(fourCC, privateData);
    AacObjectTypeOfHexByte(privateData);
    assert AacObjectTypeOf(privateData) == 2 by {
      assert DigitValue('1') == 1 && DigitValue('2') == 2;
    }
    assert NatToString(2) == "2";
    assert "mp4a.40." + "2" == "mp4a.40.2";
  }

  /** An AAC tag without private data throws when it reads `substr` of `undefined`. */
  lemma AacWithoutPrivateDataThrows(fourCC: string)
    requires StartsWith(fourCC, "AAC")
    ensures ParseCodecPrivateData(Some(fourCC), None) == Err(ReadOfUndefined("substr"))
  {
    AacTagIsNotH264(fourCC);
  }

  /** Only an AAC tag without private data throws. */
  lemma CodecThrowsOnlyForAacWithoutData(fourCC: Option<string>, codecPrivateData: Option<string>)
    ensures ParseCodecPrivateData(fourCC, codecPrivateData).Err?
            <==> StartsWith(ToJsString(fourCC), "AAC") && codecPrivateData.None?
  {
    if fourCC == Some("H264") {
      assert !StartsWith("H264", "AAC") by {
        assert "H264"[0] != 'A';
      }
    }
  }

  /** Any tag other than "H264" that does not start with "AAC" (or no tag at all) gives no codec string. */
  lemma OtherFourCCHasNoCodec(fourCC: Option<string>, codecPrivateData: Option<string>)
    requires fourCC != Some("H264") && !StartsWith(ToJsString(fourCC), "AAC")
    ensures ParseCodecPrivateData(fourCC, codecPrivateData) == Ok(None)
  {
  }

  /** A missing tag reads as "undefined", which is neither "H264" nor an AAC tag. */
  lemma MissingFourCCHasNoCodec(codecPrivateData: Option<string>)
    ensures ParseCodecPrivateData(None, codecPrivateData) == Ok(None)
  {
    assert !StartsWith("undefined", "AAC") by {
      assert "undefined"[0] != 'A';
    }
  }
}
