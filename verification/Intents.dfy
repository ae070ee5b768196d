/** From decoded transaction fields to an intent (internal/policy/intent.go). */
module Intents {
  import opened Amounts
  import opened Engine
  import opened Int64
  import opened Wrappers
  import B = Bytes

  type Bytestring = seq<B.Byte>

  // ----- Hexadecimal -----

  function HexDigit(n: nat): (c: char)
    requires n < 16
    ensures HexValue(c) == Some(n)
  {
    if n < 10 then '0' + n as char else 'a' + (n - 10) as char
  }

  function HexValue(c: char): (n: Option<nat>)
    ensures n.Some? ==> n.value < 16
  {
    if '0' <= c <= '9' then Some(c as nat - '0' as nat)
    else if 'a' <= c <= 'f' then Some(c as nat - 'a' as nat + 10)
    else if 'A' <= c <= 'F' then Some(c as nat - 'A' as nat + 10)
    else None
  }

  function HexByte(b: B.Byte): (s: string)
    ensures |s| == 2
  {
    [HexDigit(b / 16), HexDigit(b % 16)]
  }

  function HexEncode(bytes: Bytestring): (s: string)
    ensures |s| == 2 * |bytes|
  {
    if bytes == [] then "" else HexEncode(bytes[..|bytes| - 1]) + HexByte(bytes[|bytes| - 1])
  }

  function ByteOf(high: char, low: char): Option<B.Byte> {
    if HexValue(high).Some? && HexValue(low).Some? then Some(16 * HexValue(high).value + HexValue(low).value) else None
  }

  /** An even number of hexadecimal digits, of either case. */
  function HexDecode(s: string): (bytes: Option<Bytestring>)
    ensures bytes.Some? ==> 2 * |bytes.value| == |s|
  {
    if s == "" then Some([])
    else if |s| == 1 then None
    else
      var front, last := HexDecode(s[..|s| - 2]), ByteOf(s[|s| - 2], s[|s| - 1]);
      if front.None? || last.None? then None else Some(front.value + [last.value])
  }

  lemma HexDecodeOneMore(s: string, bytes: Bytestring, b: B.Byte)
    requires HexDecode(s) == Some(bytes)
    ensures HexDecode(s + HexByte(b)) == Some(bytes + [b])
  {
    var longer := s + HexByte(b);
    assert longer[..|longer| - 2] == s;
    assert ByteOf(longer[|longer| - 2], longer[|longer| - 1]) == Some(b);
  }

  lemma HexEncodeOneMore(bytes: Bytestring, b: B.Byte)
    ensures HexEncode(bytes + [b]) == HexEncode(bytes) + HexByte(b)
  {
    assert (bytes + [b])[..|bytes|] == bytes;
  }

  lemma {:induction false} HexRoundTrip(bytes: Bytestring)
    ensures HexDecode(HexEncode(bytes)) == Some(bytes)
  {
    if bytes == [] {
    } else {
      var front, last := bytes[..|bytes| - 1], bytes[|bytes| - 1];
      HexRoundTrip(front);
      var text := HexEncode(front);
      HexDecodeOneMore(text, front, last);
      HexEncodeOneMore(front, last);
      assert front + [last] == bytes;
    }
  }

  // ----- Calldata -----

  const TRANSFER: Bytestring := [0xa9, 0x05, 0x9c, 0xbb]
  const APPROVE: Bytestring := [0x09, 0x5e, 0xa7, 0xb3]

  datatype TokenCall = TokenCall(account: Bytestring, amount: nat)

  /** The address body and the amount word that follow a selector. */
  function DecodeAddressAndAmount(raw: Bytestring): Option<TokenCall> {
    if |raw| < 68 then None else Some(TokenCall(raw[16..36], B.Value(raw[36..68])))
  }

  /** Solidity Contract ABI Specification, "Argument Encoding": 32-byte words, left-padded. */
  function EncodeCall(selector: Bytestring, call: TokenCall): Bytestring {
    selector + seq(12, _ => 0) + call.account + B.BigEndian(call.amount, 32)
  }

  /** A decoded call says exactly what its two words hold; nothing else in the data matters. */
  lemma DecodeIff(raw: Bytestring, call: TokenCall)
    requires call.amount < B.Pow256(32)
    ensures DecodeAddressAndAmount(raw) == Some(call) <==>
            |raw| >= 68 && raw[16..36] == call.account && raw[36..68] == B.BigEndian(call.amount, 32)
  {
    if |raw| >= 68 {
      B.BigEndianOfValue(raw[36..68]);
      B.ValueOfBigEndian(call.amount, 32);
    }
  }

  lemma CalldataRoundTrip(selector: Bytestring, call: TokenCall, more: Bytestring)
    requires |selector| == 4 && |call.account| == 20 && call.amount < B.Pow256(32)
    ensures DecodeAddressAndAmount(EncodeCall(selector, call) + more) == Some(call)
  {
    Slices(selector, seq(12, _ => 0), call.account, B.BigEndian(call.amount, 32), more);
    DecodeIff(EncodeCall(selector, call) + more, call);
  }

  lemma Slices(a: Bytestring, b: Bytestring, c: Bytestring, d: Bytestring, more: Bytestring)
    requires |a| == 4 && |b| == 12 && |c| == 20 && |d| == 32
    ensures var raw := a + b + c + d + more; raw[..4] == a && raw[16..36] == c && raw[36..68] == d
  {
  }

  /** The token call in a `data` field, if it is a transfer or an approval. */
  function TokenCallIn(dataHex: string): Option<TokenCall> {
    if |dataHex| < 8 then None
    else
      var raw := HexDecode(dataHex);
      if raw.None? then None
      else if raw.value[..4] == TRANSFER || raw.value[..4] == APPROVE then DecodeAddressAndAmount(raw.value)
      else None
  }

  lemma TokenCallRoundTrip(selector: Bytestring, call: TokenCall)
    requires selector == TRANSFER || selector == APPROVE
    requires |call.account| == 20 && call.amount < B.Pow256(32)
    ensures TokenCallIn(HexEncode(EncodeCall(selector, call))) == Some(call)
  {
    var raw := EncodeCall(selector, call);
    HexRoundTrip(raw);
    CalldataRoundTrip(selector, call, []);
    Slices(selector, seq(12, _ => 0), call.account, B.BigEndian(call.amount, 32), []);
    assert raw + [] == raw;
  }

  // ----- Amount fields -----

  /** A decoded field: text, a finite float, NaN or an infinity, an `int64`, or another type. */
  datatype Field = Text(text: string) | Number(x: real) | NotFinite | Integer(n: Int64) | OtherType

  type Fields = map<string, Field>

  /** The amount in SUN that a field holds, unless it is malformed. */
  function AmountIn(v: Field): Option<Int64> {
    match v
    case Number(x) => if x > TWO_63 as real || x < MIN as real then None else Some(FromReal(x))
    case NotFinite => None
    case Integer(n) => Some(n)
    case Text(s) => if TRXToSun(s).Ok? then Some(TRXToSun(s).value) else None
    case OtherType => None
  }

  /** A field that is present but unreadable. */
  predicate Unreadable(fields: Fields, key: string) {
    key in fields && AmountIn(fields[key]).None?
  }

  function TextIn(fields: Fields, key: string): Option<string> {
    if key in fields && fields[key].Text? then Some(fields[key].text) else None
  }

  datatype IntentError = NoData | MalformedAmount | MalformedCallValue

  // ----- The intent -----

  /** What the SDK and the configuration do with addresses. */
  datatype Addresses = Addresses(normalize: string -> string, base58: Bytestring -> string)

  class Draft {
    var from: string
    var to: string
    var amountSUN: Int64
    var token: string
    var tokenAmount: int

    constructor ()
      ensures from == to == token == "" && amountSUN == tokenAmount == 0
    {
      from, to, amountSUN, token, tokenAmount := "", "", 0, "", 0;
    }

    function Finished(wallet: string, kind: string): Intent
      reads this
    {
      Intent(wallet, kind, from, to, amountSUN, token, tokenAmount)
    }

    /** A missing field is not an error and leaves the amount alone. */
    method ExtractAmount(fields: Fields, key: string) returns (ok: bool)
      modifies this`amountSUN
      ensures ok <==> !Unreadable(fields, key)
      ensures amountSUN == if key in fields && ok then AmountIn(fields[key]).value else old(amountSUN)
    {
      if key !in fields {
        return true;
      }
      match fields[key] {
        case Number(a) =>
          if a > TWO_63 as real || a < MIN as real {
            return false;
          }
          amountSUN := FromReal(a);
        case NotFinite =>
          return false;
        case Integer(a) =>
          amountSUN := a;
        case Text(a) =>
          var sun := TRXToSun(a);
          if sun.Err? {
            return false;
          }
          amountSUN := sun.value;
        case OtherType =>
          return false;
      }
      return true;
    }

    /** The amount of a plain transfer: later fields are tried after a malformed one. */
    method ExtractPlainAmount(fields: Fields) returns (ok: bool)
      requires amountSUN == 0
      modifies this`amountSUN
      ensures ok <==> PlainAmount(fields).Ok?
      ensures ok ==> amountSUN == PlainAmount(fields).value
    {
      ok := ExtractAmount(fields, "amount");
      if !ok {
        ok := ExtractAmount(fields, "frozen_balance");
        if !ok {
          ok := ExtractAmount(fields, "balance");
        }
      }
    }

    /** Takes the recipient from another field while there is none. */
    method FallBackTo(addresses: Addresses, fields: Fields, key: string)
      modifies this`to
      ensures to == Or(old(to), Normalized(addresses, fields, key))
    {
      if TextIn(fields, key).Some? && to == "" {
        to := addresses.normalize(TextIn(fields, key).value);
      }
    }

    method ExtractTRC20Intent(addresses: Addresses, fields: Fields) returns (ok: bool)
      modifies this`to, this`tokenAmount
      ensures ok <==> TokenCallOf(fields).Some?
      ensures !ok ==> to == old(to) && tokenAmount == old(tokenAmount)
      ensures ok ==>
                var call := TokenCallOf(fields).value;
                to == addresses.base58([0x41] + call.account) && tokenAmount == call.amount
    {
      var dataHex := TextIn(fields, "data");
      if dataHex.None? || |dataHex.value| < 8 {
        return false;
      }
      var raw := HexDecode(dataHex.value);
      if raw.None? {
        return false;
      }
      if raw.value[..4] == TRANSFER || raw.value[..4] == APPROVE {
        var call := DecodeAddressAndAmount(raw.value);
        if call.None? {
          return false;
        }
        to, tokenAmount := addresses.base58([0x41] + call.value.account), call.value.amount;
        return true;
      }
      return false;
    }
  }

  function Normalized(addresses: Addresses, fields: Fields, key: string): string {
    if TextIn(fields, key).Some? then addresses.normalize(TextIn(fields, key).value) else ""
  }

  /** The contract address of a call; a missing one is normalized as the empty string. */
  function ContractAddress(addresses: Addresses, fields: Fields): string {
    var text := TextIn(fields, "contract_address");
    addresses.normalize(if text.Some? then text.value else "")
  }

  /** The first of two texts that is not empty. */
  function Or(a: string, b: string): string {
    if a != "" then a else b
  }

  function TokenCallOf(fields: Fields): Option<TokenCall> {
    if TextIn(fields, "data").Some? then TokenCallIn(TextIn(fields, "data").value) else None
  }

  /** The amount of a plain transfer: later fields are read only after a malformed one. */
  function PlainAmount(fields: Fields): Result<Int64, IntentError> {
    if !Unreadable(fields, "amount") then Ok(AmountOrZero(fields, "amount"))
    else if !Unreadable(fields, "frozen_balance") then Ok(AmountOrZero(fields, "frozen_balance"))
    else if !Unreadable(fields, "balance") then Ok(AmountOrZero(fields, "balance"))
    else Err(MalformedAmount)
  }

  function AmountOrZero(fields: Fields, key: string): Int64 {
    if key in fields && AmountIn(fields[key]).Some? then AmountIn(fields[key]).value else 0
  }

  /** The intent that decoded contract data stands for. */
  function IntentOf(wallet: string, kind: string, addresses: Addresses, fields: Fields): Result<Intent, IntentError> {
    var from, to := Normalized(addresses, fields, "owner_address"), Normalized(addresses, fields, "to_address");
    var contract := ContractAddress(addresses, fields);
    if kind == "TriggerSmartContract" then
      var call := TokenCallOf(fields);
      if call.Some? then
        Ok(Intent(wallet, kind, from, addresses.base58([0x41] + call.value.account), 0, contract, call.value.amount))
      else if Unreadable(fields, "call_value") then Err(MalformedCallValue)
      else
        var value := AmountOrZero(fields, "call_value");
        Ok(Intent(wallet, kind, from, Or(to, contract), value, "TRX", value))
    else
      var amount := PlainAmount(fields);
      if amount.Err? then Err(amount.error)
      else
        var recipient := Or(Or(to, Normalized(addresses, fields, "contract_address")),
            Normalized(addresses, fields, "receiver_address"));
        Ok(Intent(wallet, kind, from, recipient, amount.value, "TRX", amount.value))
  }

  method IntentFromContractData(wallet: string, kind: string, addresses: Addresses, fields: Fields)
    returns (r: Result<Intent, IntentError>)
    ensures r == IntentOf(wallet, kind, addresses, fields)
  {
    var draft := new Draft();
    if TextIn(fields, "owner_address").Some? {
      draft.from := addresses.normalize(TextIn(fields, "owner_address").value);
    }
    if TextIn(fields, "to_address").Some? {
      draft.to := addresses.normalize(TextIn(fields, "to_address").value);
    }
    if kind == "TriggerSmartContract" {
      var contractAddr := ContractAddress(addresses, fields);
      var isToken := draft.ExtractTRC20Intent(addresses, fields);
      if isToken {
        draft.token := contractAddr;
        return Ok(draft.Finished(wallet, kind));
      }
      if contractAddr != "" && draft.to == "" {
        draft.to := contractAddr;
      }
      draft.token := "TRX";
      var valued := draft.ExtractAmount(fields, "call_value");
      if !valued {
        return Err(MalformedCallValue);
      }
      draft.tokenAmount := draft.amountSUN;
      return Ok(draft.Finished(wallet, kind));
    }
    draft.token := "TRX";
    draft.FallBackTo(addresses, fields, "contract_address");
    draft.FallBackTo(addresses, fields, "receiver_address");
    var ok := draft.ExtractPlainAmount(fields);
    if !ok {
      return Err(MalformedAmount);
    }
    draft.tokenAmount := draft.amountSUN;
    return Ok(draft.Finished(wallet, kind));
  }

  // ----- What intents guarantee -----

  /** The engine's assumption about TRX intents holds of every intent built here, for any token address but "TRX". */
  lemma IntentsAreCoherent(wallet: string, kind: string, addresses: Addresses, fields: Fields)
    requires IntentOf(wallet, kind, addresses, fields).Ok?
    requires ContractAddress(addresses, fields) != "TRX"
    ensures Coherent(IntentOf(wallet, kind, addresses, fields).value)
  {
  }

  /** A token transfer is seen with its real recipient, amount and contract. */
  lemma TransferIsSeen(wallet: string, addresses: Addresses, fields: Fields, selector: Bytestring, call: TokenCall)
    requires selector == TRANSFER || selector == APPROVE
    requires |call.account| == 20 && call.amount < B.Pow256(32)
    requires TextIn(fields, "data") == Some(HexEncode(EncodeCall(selector, call)))
    ensures IntentOf(wallet, "TriggerSmartContract", addresses, fields) ==
            Ok(Intent(wallet, "TriggerSmartContract", Normalized(addresses, fields, "owner_address"),
                      addresses.base58([0x41] + call.account), 0, ContractAddress(addresses, fields), call.amount))
  {
    TokenCallRoundTrip(selector, call);
  }

  /**
   * A contract call's intent carries the TRX sent along with it, unless the call
   * is a token call: then the call value is not read, and no TRX limit sees it.
   */
  lemma CallValueCountsIff(wallet: string, addresses: Addresses, fields: Fields)
    requires IntentOf(wallet, "TriggerSmartContract", addresses, fields).Ok?
    ensures IntentOf(wallet, "TriggerSmartContract", addresses, fields).value.amountSUN
            == AmountOrZero(fields, "call_value") <==>
            TokenCallOf(fields).None? || AmountOrZero(fields, "call_value") == 0
  {
  }

  /**
   * A plain transfer whose amount field is malformed is refused if and only if
   * the two alternative fields are present and malformed as well.
   */
  lemma MalformedRefusedIff(wallet: string, kind: string, addresses: Addresses, fields: Fields)
    requires kind != "TriggerSmartContract" && Unreadable(fields, "amount")
    ensures IntentOf(wallet, kind, addresses, fields).Err? <==>
              Unreadable(fields, "frozen_balance") && Unreadable(fields, "balance")
  {
  }

  /** Otherwise it can count as nothing: an unreadable amount alone is an intent to move zero. */
  lemma MalformedCountsAsZero(wallet: string, kind: string, addresses: Addresses)
    requires kind != "TriggerSmartContract"
    ensures var r := IntentOf(wallet, kind, addresses, map["amount" := OtherType]);
            r.Ok? && r.value.amountSUN == 0 == r.value.tokenAmount
  {
  }

  /** The alternative fields decide only after a malformed amount, never in place of a missing one. */
  lemma AlternativesDecideIff(fields: Fields, other: Field)
    requires AmountIn(other).Some? && AmountIn(other).value != 0 && "frozen_balance" !in fields
    ensures var amount := Ok(AmountIn(other).value);
            PlainAmount(fields["frozen_balance" := other]) == amount != PlainAmount(fields) <==>
            Unreadable(fields, "amount")
  {
  }
}
