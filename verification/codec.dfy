/**
  The value codec of lmdbpp's `detail` namespace: classification of a C++ type
  into one of four serialization kinds, encoding of a value into the bytes of
  an `MDB_val`, and decoding of those bytes back into a typed output.

  A C++ type is described by its traits (trivially copyable, string-like,
  byte-like), `sizeof`, and which of the standard library types the decoder
  names it is. A value is described by its object representation (the bytes
  `memcpy` copies) and the contents of the buffer its `data()` designates.
 */
module Codec {
  import opened Errors
  import opened Engine

  /** The standard library types that `from_mdb_val` tests for by name. */
  datatype TypeName = StdString | StdStringView | ByteVector | ByteSpan | OtherType

  datatype TypeDesc = TypeDesc(
    name: TypeName,
    triviallyCopyable: bool,  // std::is_trivially_copyable_v<T>
    stringLike: bool,         // data() converts to const char*, size() to size_t
    byteLike: bool,           // data() converts to const std::byte*, size() to size_t
    size: nat)                // sizeof(T)

  /** The traits the standard library types actually have: `std::string_view`
      and `std::span<const std::byte>` are trivially copyable views, while
      `std::string` and `std::vector<std::byte>` own their buffers. */
  predicate StandardTraits(t: TypeDesc) {
    match t.name
    case StdString => !t.triviallyCopyable && t.stringLike && !t.byteLike
    case StdStringView => t.triviallyCopyable && t.stringLike && !t.byteLike
    case ByteVector => !t.triviallyCopyable && !t.stringLike && t.byteLike
    case ByteSpan => t.triviallyCopyable && !t.stringLike && t.byteLike
    case OtherType => true
  }

  /** The `SerializableLike` concept: a disjunction of the three traits. */
  predicate SerializableLike(t: TypeDesc) {
    t.triviallyCopyable || t.stringLike || t.byteLike
  }

  datatype Kind = Trivial | StringKind | BytesKind | Unknown

  /** `get_serializable_kind`: the first trait that holds, in the order
      trivial, string, bytes; unknown when none does. */
  function KindOf(t: TypeDesc): (k: Kind)
    ensures k == Unknown <==> !SerializableLike(t)
    ensures k == Trivial <==> t.triviallyCopyable
    ensures k == StringKind <==> !t.triviallyCopyable && t.stringLike
    ensures k == BytesKind <==> !t.triviallyCopyable && !t.stringLike && t.byteLike
  {
    if t.triviallyCopyable then Trivial
    else if t.stringLike then StringKind
    else if t.byteLike then BytesKind
    else Unknown
  }

  datatype Value = Value(repr: Bytes, content: Bytes)

  /** A value of type `t` has `sizeof(T)` bytes of object representation. */
  predicate Fits(t: TypeDesc, v: Value) {
    t.triviallyCopyable ==> |v.repr| == t.size
  }

  /** What of a value crosses the engine boundary, given how its type is
      classified: the object bytes of a trivial type, the buffer otherwise. */
  function Meaning(t: TypeDesc, v: Value): Bytes {
    if KindOf(t) == Trivial then v.repr else v.content
  }

  datatype Encoded = Encoded(status: Status, val: Bytes)

  /** `to_mdb_val`: the bytes the `MDB_val` designates. The template only
      accepts `SerializableLike` types, so its EINVAL branch is never
      instantiated; it is kept here as written. */
  function Encode(t: TypeDesc, v: Value): (r: Encoded)
    ensures r.status.Ok() <==> SerializableLike(t)
    ensures r.status.Ok() ==> r.val == Meaning(t, v)
    ensures !r.status.Ok() ==> r.status.code == EINVAL && r.val == []
    ensures Fits(t, v) && KindOf(t) == Trivial ==> |r.val| == t.size
    ensures KindOf(t) in {StringKind, BytesKind} ==> |r.val| == |v.content|
  {
    match KindOf(t)
    case Trivial => Encoded(Success, v.repr)
    case StringKind => Encoded(Success, v.content)
    case BytesKind => Encoded(Success, v.content)
    case Unknown => Encoded(Status(EINVAL), [])
  }

  /** The `if constexpr` branch of `from_mdb_val` a type selects, in source
      order. */
  datatype Branch = CopyObject | AssignString | ViewString | AssignBytes | ViewBytes | Unsupported

  function DecodeBranch(t: TypeDesc): (b: Branch)
    ensures b == CopyObject <==> KindOf(t) == Trivial
    ensures b == AssignString <==> !t.triviallyCopyable && t.name == StdString
    ensures b == ViewString <==> !t.triviallyCopyable && t.name == StdStringView
    ensures b == AssignBytes <==> !t.triviallyCopyable && t.name == ByteVector
    ensures b == ViewBytes <==> !t.triviallyCopyable && t.name == ByteSpan
    ensures b == Unsupported <==> !t.triviallyCopyable && t.name == OtherType
  {
    if KindOf(t) == Trivial then CopyObject
    else
      match t.name
      case StdString => AssignString
      case StdStringView => ViewString
      case ByteVector => AssignBytes
      case ByteSpan => ViewBytes
      case OtherType => Unsupported
  }

  datatype Decoded = Decoded(status: Status, out: Value)

  /** `from_mdb_val`: decodes `val` into the output `out` of type `t`. A
      trivial type needs exactly `sizeof(T)` bytes (EPERM otherwise); the
      buffer types take all the bytes, empty included; any other type is
      refused with EINVAL. A failure leaves `out` untouched. For a trivially
      copyable view type the copied object bytes are the whole result:
      `content` is not updated, as the memory the copied pointer designates
      is not modelled. */
  function Decode(val: Bytes, t: TypeDesc, out: Value): (r: Decoded)
    ensures r.status.Ok() ==> Meaning(t, r.out) == val
    ensures !r.status.Ok() ==> r.out == out
    ensures KindOf(t) == Trivial ==> (r.status.Ok() <==> |val| == t.size)
    ensures KindOf(t) == Trivial && !r.status.Ok() ==> r.status.code == EPERM
    ensures DecodeBranch(t) == Unsupported <==> r.status.code == EINVAL
    ensures DecodeBranch(t) != CopyObject ==> (r.status.Ok() <==> DecodeBranch(t) != Unsupported)
    ensures KindOf(t) == Trivial ==> r.out.content == out.content
    ensures KindOf(t) != Trivial ==> r.out.repr == out.repr
  {
    match DecodeBranch(t)
    case CopyObject =>
      if |val| != t.size then Decoded(Status(EPERM), out) else Decoded(Success, out.(repr := val))
    case AssignString => Decoded(Success, out.(content := val))
    case ViewString => Decoded(Success, out.(content := val))
    case AssignBytes => Decoded(Success, out.(content := val))
    case ViewBytes => Decoded(Success, out.(content := val))
    case Unsupported => Decoded(Status(EINVAL), out)
  }

  /** A type whose decode branch is not `Unsupported`. */
  predicate Decodable(t: TypeDesc) {
    DecodeBranch(t) != Unsupported
  }

  /** Classification is first-match: a type that is both trivially copyable
      and string-like (`std::string_view`) encodes as its `sizeof(T)` object
      bytes, not as its characters. */
  lemma TrivialWinsOverStringLike(t: TypeDesc, v: Value)
    requires t.triviallyCopyable && t.stringLike && Fits(t, v)
    ensures KindOf(t) == Trivial
    ensures Encode(t, v) == Encoded(Success, v.repr)
    ensures |Encode(t, v).val| == t.size
    ensures |v.content| != t.size ==> Encode(t, v).val != v.content
  {
  }

  /** With the standard traits, the `std::string_view` and
      `std::span<const std::byte>` branches of `from_mdb_val` are dead code:
      both types are trivially copyable, so the first branch takes them. */
  lemma ViewBranchesUnreachable(t: TypeDesc)
    requires StandardTraits(t)
    ensures DecodeBranch(t) != ViewString && DecodeBranch(t) != ViewBytes
    ensures t.name in {StdStringView, ByteSpan} ==> DecodeBranch(t) == CopyObject
  {
  }

  /** Which standard types decode: everything trivially copyable, and the
      two owning buffers; any other non-trivial type is refused. */
  lemma DecodableTypes(t: TypeDesc)
    requires StandardTraits(t)
    ensures Decodable(t) <==> t.triviallyCopyable || t.name in {StdString, ByteVector}
  {
  }

  /** The round trip `from_mdb_val(to_mdb_val(x))` reproduces what of `x`
      crosses the boundary, for every type that both encodes and decodes and
      every prior content of the output, the empty buffer included. */
  lemma RoundTrip(t: TypeDesc, x: Value, out: Value)
    requires SerializableLike(t) && Decodable(t) && Fits(t, x)
    ensures Encode(t, x).status.Ok()
    ensures Decode(Encode(t, x).val, t, out).status.Ok()
    ensures Meaning(t, Decode(Encode(t, x).val, t, out).out) == Meaning(t, x)
  {
  }

  /** For a trivially copyable type, decoding the encoding copies back the
      whole object representation, so the decoded value equals the original. */
  lemma TrivialRoundTrip(t: TypeDesc, x: Value, out: Value)
    requires t.triviallyCopyable && Fits(t, x)
    ensures Decode(Encode(t, x).val, t, out) == Decoded(Success, out.(repr := x.repr))
  {
  }

  /** For `std::string` and `std::vector<std::byte>` the decoded buffer is
      the original buffer, whatever the output held before. */
  lemma BufferRoundTrip(t: TypeDesc, x: Value, out: Value)
    requires StandardTraits(t) && t.name in {StdString, ByteVector}
    ensures Decode(Encode(t, x).val, t, out) == Decoded(Success, out.(content := x.content))
  {
  }

  /** A type that encodes but has no decode branch (a non-trivial string-like
      type other than `std::string`, say) is refused on the way back. */
  lemma EncodableButNotDecodable(t: TypeDesc, x: Value, val: Bytes, out: Value)
    requires SerializableLike(t) && !t.triviallyCopyable && t.name == OtherType
    ensures Encode(t, x).status.Ok()
    ensures Decode(val, t, out) == Decoded(Status(EINVAL), out)
  {
  }
}
