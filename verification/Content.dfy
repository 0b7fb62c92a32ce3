/** Content entries of a bundle: Base64 text with a declared length and digest, as the two
    implementations accept them. */
module Content {
  import opened Records
  import opened Base64

  const MAX_INTEGER := 9007199254740991

  datatype Content = Content(data: string, byteLength: int, digest: Digest)

  function ContentOf(raw: Bytes): Content { Content(Encode(raw), |raw|, Sha256(raw)) }

  /** The entry is the canonical one of these bytes, and they stay within the limit. */
  predicate Describes(e: Content, raw: Bytes, limit: nat) {
    e == ContentOf(raw) && |raw| <= limit && |raw| <= MAX_INTEGER
  }

  /** `r` is the byte string of an acceptable entry, or none is. */
  ghost predicate Decides(e: Content, limit: nat, r: Option<Bytes>) {
    if r.Some? then Describes(e, r.value, limit) else forall raw :: !Describes(e, raw, limit)
  }

  /** An entry describes at most one byte string, so the decision is unique. */
  lemma OneDecision(e: Content, limit: nat, r: Option<Bytes>, s: Option<Bytes>)
    requires Decides(e, limit, r) && Decides(e, limit, s)
    ensures r == s
  {
    if r.Some? && s.Some? {
      EncodeInjective(r.value, s.value);
    }
  }

  lemma DescribedText(e: Content, raw: Bytes, limit: nat)
    requires Describes(e, raw, limit)
    ensures WellFormed(e.data) && DecodedLength(e.data) == e.byteLength == |raw| && Decode(e.data) == raw
    ensures |e.data| <= 4 * ((limit + 2) / 3)
  {
    DecodeEncode(raw);
    DecodedLengthIs(e.data);
    EncodeLength(raw);
  }

  // ---------- Implementation A ----------

  /** `_content_header`: everything that can be decided before any byte is decoded. */
  method Header(e: Content, limit: nat) returns (r: Option<nat>)
    ensures r.Some? <==> WellFormed(e.data) && 0 <= e.byteLength <= limit && e.byteLength <= MAX_INTEGER
                         && |Decode(e.data)| == e.byteLength
    ensures r.Some? ==> r.value == e.byteLength
  {
    hide Decode, Padding, AllInAlphabet, Patterned;
    if WellFormed(e.data) {
      DecodedLengthIs(e.data);
    }
    PatternedIs(e.data);
    if e.byteLength < 0 || e.byteLength > MAX_INTEGER || e.byteLength > limit {
      return None;
    }
    if |e.data| % 4 != 0 {
      return None;
    }
    var decodedLength := DecodedLength(e.data);
    if decodedLength > limit {
      return None;
    }
    if !Patterned(e.data) {
      return None;
    }
    if decodedLength != e.byteLength {
      return None;
    }
    return Some(decodedLength);
  }

  /** `_decode_content`, for an entry whose header is accepted. */
  method DecodeContent(e: Content) returns (r: Option<Bytes>)
    requires WellFormed(e.data)
    ensures r.Some? <==> e == ContentOf(Decode(e.data))
    ensures r.Some? ==> r.value == Decode(e.data)
  {
    hide Decode, Encode;
    var decoded := Decode(e.data);
    if Encode(decoded) != e.data {
      return None;
    }
    if |decoded| != e.byteLength || Sha256(decoded) != e.digest {
      return None;
    }
    return Some(decoded);
  }

  /** Header and content of one entry: accepted exactly if it is the canonical entry of some bytes
      within the limit, which are returned. */
  method DecodeEntryA(e: Content, limit: nat) returns (r: Option<Bytes>)
    ensures Decides(e, limit, r)
  {
    hide Decode, Encode, WellFormed;
    var size := Header(e, limit);
    if size.None? {
      forall raw
        ensures !Describes(e, raw, limit)
      {
        if Describes(e, raw, limit) {
          DescribedText(e, raw, limit);
        }
      }
      return None;
    }
    r := DecodeContent(e);
    forall raw | Describes(e, raw, limit)
      ensures raw == Decode(e.data)
    {
      DescribedText(e, raw, limit);
    }
  }

  // ---------- Implementation B ----------

  /** `decode_entry`. What the library decoder makes of text that is not well-formed is `elsewhere`. */
  method DecodeEntryB(e: Content, maximum: nat, elsewhere: Option<Bytes>) returns (r: Option<Bytes>)
    ensures Decides(e, maximum, r)
  {
    hide Decode, Encode, WellFormed;
    forall raw | Describes(e, raw, maximum)
      ensures WellFormed(e.data) && raw == Decode(e.data) && |e.data| <= 4 * ((maximum + 2) / 3)
    {
      DescribedText(e, raw, maximum);
    }
    if e.byteLength < 0 || e.byteLength > MAX_INTEGER || e.byteLength > maximum {
      return None;
    }
    if |e.data| > 4 * ((maximum + 2) / 3) {
      return None;
    }
    var decoded := if WellFormed(e.data) then Some(Decode(e.data)) else elsewhere;
    if decoded.None? || |decoded.value| > maximum {
      return None;
    }
    if Encode(decoded.value) != e.data {
      return None;
    }
    if |decoded.value| != e.byteLength || Sha256(decoded.value) != e.digest {
      return None;
    }
    return decoded;
  }

  /** The two implementations accept the same entries with the same bytes. */
  method EntriesAgree(e: Content, limit: nat, elsewhere: Option<Bytes>) returns (a: Option<Bytes>, b: Option<Bytes>)
    ensures a == b
    ensures a.Some? ==> Describes(e, a.value, limit)
  {
    a := DecodeEntryA(e, limit);
    b := DecodeEntryB(e, limit, elsewhere);
    OneDecision(e, limit, a, b);
  }
}
