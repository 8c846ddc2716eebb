/** The value types shared by the two Wake-on-LAN library crates: bytes, the
    6-byte hardware address, the closed error enum for MAC conversion and its
    `Display` messages, and the conversion of the accepted input forms into
    address bytes (the `AsMacBytes` trait). */
module MacTypes {
  import opened Decimal

  newtype u8 = x: int | 0 <= x < 256

  /** A hardware address: always exactly six bytes (Rust's `[u8; 6]`). */
  type MacBytes = s: seq<u8> | |s| == 6 witness [0, 0, 0, 0, 0, 0]

  datatype Option<+T> = None | Some(value: T)

  datatype Result<+T, +E> = Ok(value: T) | Err(error: E) {
    predicate IsFailure() { Err? }

    function PropagateFailure<U>(): Result<U, E>
      requires Err?
    {
      Err(error)
    }

    function Extract(): T
      requires Ok?
    {
      value
    }
  }

  /** `MacAddressError`: the only ways converting an input into an address can fail. */
  datatype MacAddressError =
    | InvalidByteInMac(fragment: string)  // a byte group is not hexadecimal
    | InvalidMacAddress(original: string) // wrong group count or trailing characters
    | InvalidLength(length: nat)          // a byte slice that is not 6 long

  const INVALID_BYTE_PREFIX: string := "Invalid byte in MAC address: "
  const INVALID_MAC_PREFIX: string := "Invalid MAC address: "
  const INVALID_LENGTH_PREFIX: string := "Invalid MAC address length: expected 6 bytes, got "

  /** The `Display` text of an error (what `e.to_string()` produces): the
      variant's fixed prefix, then its payload; a length is written in
      decimal digits whose value is that length, with no leading zero. */
  function ErrorMessage(e: MacAddressError): (m: string)
    ensures e.InvalidByteInMac? ==>
      |m| >= |INVALID_BYTE_PREFIX| && m[..|INVALID_BYTE_PREFIX|] == INVALID_BYTE_PREFIX
      && m[|INVALID_BYTE_PREFIX|..] == e.fragment
    ensures e.InvalidMacAddress? ==>
      |m| >= |INVALID_MAC_PREFIX| && m[..|INVALID_MAC_PREFIX|] == INVALID_MAC_PREFIX
      && m[|INVALID_MAC_PREFIX|..] == e.original
    ensures e.InvalidLength? ==>
      |m| > |INVALID_LENGTH_PREFIX| && m[..|INVALID_LENGTH_PREFIX|] == INVALID_LENGTH_PREFIX
      && AllDigits(m[|INVALID_LENGTH_PREFIX|..]) && DigitsValue(m[|INVALID_LENGTH_PREFIX|..]) == e.length
      && (|m| > |INVALID_LENGTH_PREFIX| + 1 ==> m[|INVALID_LENGTH_PREFIX|] != '0')
  {
    match e
    case InvalidByteInMac(fragment) => INVALID_BYTE_PREFIX + fragment
    case InvalidMacAddress(original) => INVALID_MAC_PREFIX + original
    case InvalidLength(n) =>
      DigitsValueOfNatToString(n);
      var m := INVALID_LENGTH_PREFIX + NatToString(n);
      assert m[|INVALID_LENGTH_PREFIX|..] == NatToString(n);
      m
  }

  /** Characters 8 and 19 of a message tell the three variants apart. */
  lemma VariantOfMessage(e: MacAddressError)
    ensures e.InvalidByteInMac? <==> ErrorMessage(e)[8] == 'b'
    ensures e.InvalidMacAddress? <==> ErrorMessage(e)[8] != 'b' && ErrorMessage(e)[19] == ':'
  {
    var m := ErrorMessage(e);
    match e
    case InvalidByteInMac(_) =>
      assert m[8] == INVALID_BYTE_PREFIX[8];
    case InvalidMacAddress(_) =>
      assert m[8] == INVALID_MAC_PREFIX[8] && m[19] == INVALID_MAC_PREFIX[19];
    case InvalidLength(_) =>
      assert m[8] == INVALID_LENGTH_PREFIX[8] && m[19] == INVALID_LENGTH_PREFIX[19];
  }

  /** The message names the error exactly: two errors with the same text are
      the same error, so a user shown the message loses no information. */
  lemma ErrorMessageInjective(e1: MacAddressError, e2: MacAddressError)
    requires ErrorMessage(e1) == ErrorMessage(e2)
    ensures e1 == e2
  {
    VariantOfMessage(e1);
    VariantOfMessage(e2);
    if e1.InvalidLength? {
      var m := ErrorMessage(e1);
      assert DigitsValue(m[|INVALID_LENGTH_PREFIX|..]) == e1.length == e2.length;
    }
  }

  /** The input forms a caller may hand to `create_magic_packet`. */
  datatype MacInput =
    | FromMac(mac: MacBytes)      // a `Mac` value
    | FromArray(bytes: MacBytes)  // a `[u8; 6]`
    | FromSlice(slice: seq<u8>)   // a `&[u8]` of any length
    | FromText(text: string)      // a `&str` or `String`

  /** A string-to-address parser (`Mac::from_str`). Its grammar is not part of
      this model: callers pass it in, and lemmas constrain it only by the
      repository's test vectors. */
  type MacParser = string -> Result<MacBytes, MacAddressError>

  /** `as_mac_bytes`: the 6 bytes of an input, or why it has none. */
  function AsMacBytes(input: MacInput, parse: MacParser): (r: Result<MacBytes, MacAddressError>)
    ensures input.FromMac? ==> r == Ok(input.mac)
    ensures input.FromArray? ==> r == Ok(input.bytes)
    ensures input.FromSlice? ==> (r.Ok? <==> |input.slice| == 6)
    ensures input.FromSlice? && r.Ok? ==> r.value == input.slice
    ensures input.FromSlice? && r.Err? ==> r.error == InvalidLength(|input.slice|)
    ensures input.FromText? ==> r == parse(input.text)
  {
    match input
    case FromMac(mac) => Ok(mac)
    case FromArray(bytes) => Ok(bytes)
    case FromSlice(slice) => if |slice| == 6 then Ok(slice) else Err(InvalidLength(|slice|))
    case FromText(text) => parse(text)
  }
}
