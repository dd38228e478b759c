/**
 * Conversion of a user profile between its stored form and its API form
 * (pkg/models/profile.go). The stored id is a 12-byte MongoDB ObjectID; the API
 * carries it as text. The ObjectID hex codec is the one of the MongoDB Go driver:
 * `Hex` writes 24 lower-case digits, `ObjectIDFromHex` accepts exactly 24 hex
 * digits of either case and otherwise yields an error beside the nil id.
 */
module Profiles {
  import opened Wrappers

  newtype byte = x: int | 0 <= x < 256

  type ObjectID = s: seq<byte> | |s| == 12 witness [0, 0, 0, 0, 0, 0, 0, 0, 0, 0, 0, 0]

  /** The zero value of an ObjectID. */
  const NilObjectID: ObjectID := [0, 0, 0, 0, 0, 0, 0, 0, 0, 0, 0, 0]

  /** A profile as stored in the user record. */
  datatype Profile = Profile(
    id: ObjectID,
    alias: string,
    consentConfirmedAt: int,
    createdAt: int,
    avatarID: string,
    mainProfile: bool,
    acceptedPolicyChange: string)

  /** A profile as exchanged over the API. */
  datatype ApiProfile = ApiProfile(
    id: string,
    alias: string,
    consentConfirmedAt: int,
    createdAt: int,
    avatarId: string,
    mainProfile: bool,
    acceptedPolicyChange: string)

  /** The zero value of Profile. */
  const ZeroProfile: Profile := Profile(NilObjectID, "", 0, 0, "", false, "")

  // --- hex codec ------------------------------------------------------------

  function HexDigit(n: nat): char
    requires n < 16
  {
    if n < 10 then '0' + n as char else 'a' + (n - 10) as char
  }

  /** The value of one hex digit, either case; None for any other character. */
  function DigitValue(c: char): (r: Option<nat>)
    ensures r.Some? ==> r.value < 16
  {
    if '0' <= c <= '9' then Some(c as nat - '0' as nat)
    else if 'a' <= c <= 'f' then Some(c as nat - 'a' as nat + 10)
    else if 'A' <= c <= 'F' then Some(c as nat - 'A' as nat + 10)
    else None
  }

  function HexBytes(bs: seq<byte>): (s: string)
    ensures |s| == 2 * |bs|
  {
    if bs == [] then ""
    else [HexDigit(bs[0] as nat / 16), HexDigit(bs[0] as nat % 16)] + HexBytes(bs[1..])
  }

  /** The text form of an ObjectID. */
  function Hex(id: ObjectID): (s: string)
    ensures |s| == 24
  {
    HexBytes(id)
  }

  function DecodeHex(s: string): (r: Option<seq<byte>>)
    requires |s| % 2 == 0
    ensures r.Some? ==> |r.value| == |s| / 2
  {
    if s == [] then Some([])
    else
      var hi, lo, rest := DigitValue(s[0]), DigitValue(s[1]), DecodeHex(s[2..]);
      if hi.Some? && lo.Some? && rest.Some? then Some([(hi.value * 16 + lo.value) as byte] + rest.value)
      else None
  }

  /** ObjectIDFromHex: exactly 24 hex digits, or an error. */
  function ObjectIDFromHex(s: string): Result<ObjectID, string>
  {
    if |s| != 24 then Err("the provided hex string is not a valid ObjectID")
    else match DecodeHex(s)
      case Some(bs) => var id: ObjectID := bs; Ok(id)
      case None => Err("encoding/hex: invalid byte")
  }

  lemma DigitValueOfHexDigit(n: nat)
    requires n < 16
    ensures DigitValue(HexDigit(n)) == Some(n)
  {
  }

  lemma {:induction false} DecodeHexOfHexBytes(bs: seq<byte>)
    ensures DecodeHex(HexBytes(bs)) == Some(bs)
  {
    if bs != [] {
      var b := bs[0] as nat;
      var s := HexBytes(bs);
      assert s[2..] == HexBytes(bs[1..]);
      DecodeHexOfHexBytes(bs[1..]);
      DigitValueOfHexDigit(b / 16);
      DigitValueOfHexDigit(b % 16);
      assert (b / 16 * 16 + b % 16) as byte == bs[0];
      assert [bs[0]] + bs[1..] == bs;
    }
  }

  /** Parsing the text form of an ObjectID gives the ObjectID back. */
  lemma ObjectIDHexRoundTrip(id: ObjectID)
    ensures ObjectIDFromHex(Hex(id)) == Ok(id)
  {
    DecodeHexOfHexBytes(id);
  }

  // --- the conversions --------------------------------------------------------

  /**
   * ProfileFromAPI: a nil API profile becomes the zero profile; otherwise every
   * field is copied, and a non-empty id is parsed, the parse error being ignored.
   */
  function ProfileFromAPI(p: Option<ApiProfile>): Profile
  {
    match p
    case None => ZeroProfile
    case Some(a) =>
      Profile(StoredId(a.id), a.alias, a.consentConfirmedAt, a.createdAt, a.avatarId, a.mainProfile, a.acceptedPolicyChange)
  }

  /** The stored id for an API id: parsed when non-empty, the nil id when empty or unparsable. */
  function StoredId(s: string): ObjectID
  {
    if |s| == 0 then NilObjectID
    else match ObjectIDFromHex(s)
      case Ok(v) => v
      case Err(_) => NilObjectID
  }

  /** Profile.ToAPI: every field copied, the id written in hex. */
  function ToAPI(p: Profile): ApiProfile
  {
    ApiProfile(Hex(p.id), p.alias, p.consentConfirmedAt, p.createdAt, p.avatarID, p.mainProfile, p.acceptedPolicyChange)
  }

  // --- properties ------------------------------------------------------------

  /** A nil API profile maps to the zero profile. */
  lemma FromNilIsZero()
    ensures ProfileFromAPI(None) == ZeroProfile
    ensures ProfileFromAPI(None).id == NilObjectID && ProfileFromAPI(None).alias == ""
  {
  }

  /** An empty or malformed API id leaves the stored id at its zero value. */
  lemma UnparsableIdIsNil(a: ApiProfile)
    requires |a.id| == 0 || ObjectIDFromHex(a.id).Err?
    ensures ProfileFromAPI(Some(a)).id == NilObjectID
  {
  }

  /** The six fields other than the id survive API -> store -> API unchanged. */
  lemma ApiRoundTripKeepsFields(a: ApiProfile)
    ensures var b := ToAPI(ProfileFromAPI(Some(a)));
            b.alias == a.alias && b.consentConfirmedAt == a.consentConfirmedAt
            && b.createdAt == a.createdAt && b.avatarId == a.avatarId
            && b.mainProfile == a.mainProfile && b.acceptedPolicyChange == a.acceptedPolicyChange
  {
  }

  /** An id that is the text form of some ObjectID also survives API -> store -> API. */
  lemma ApiRoundTrip(a: ApiProfile, id: ObjectID)
    requires a.id == Hex(id)
    ensures ToAPI(ProfileFromAPI(Some(a))) == a
  {
    ObjectIDHexRoundTrip(id);
  }

  /** Every stored profile survives store -> API -> store unchanged. */
  lemma StoredRoundTrip(p: Profile)
    ensures ProfileFromAPI(Some(ToAPI(p))) == p
  {
    ObjectIDHexRoundTrip(p.id);
  }
}
