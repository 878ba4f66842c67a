/** The bytes a wallet signs for a message: they determine the message and are never a transaction's bytes. */
module MessageSigning {
  import opened Json
  import opened Decimal
  import opened Encoding
  import Utf8

  function Prefix(): (p: seq<int>)
    ensures p != [] && p[0] == 0x19
  {
    [0x19] + T("RougeChain Signed Message:") + [0x0a]
  }

  /** `messageSigningBytes`: the prefix, the decimal byte length, a newline, the message. */
  function SigningBytes(body: seq<int>): seq<int> {
    Prefix() + (DecimalText(|body|) + ([0x0a] + body))
  }

  lemma {:induction false} DecimalIsOneLine(n: nat)
    ensures forall i | 0 <= i < |DecimalText(n)| :: DecimalText(n)[i] != 0x0a
  {
    if n >= 10 { DecimalIsOneLine(n / 10); }
  }

  /** Different messages are signed as different bytes. */
  lemma SigningBytesAreInjective(a: seq<int>, b: seq<int>)
    requires SigningBytes(a) == SigningBytes(b)
    ensures a == b
  {
    hide Prefix, DecimalText;
    var p := |Prefix()|;
    var x, y := DecimalText(|a|), DecimalText(|b|);
    var s, t := x + ([0x0a] + a), y + ([0x0a] + b);
    assert SigningBytes(a)[p..] == s && SigningBytes(b)[p..] == t;
    DecimalIsOneLine(|a|);
    DecimalIsOneLine(|b|);
    assert s[|x|] == 0x0a && t[|y|] == 0x0a;
    assert forall i | 0 <= i < |x| :: s[i] == x[i];
    assert forall i | 0 <= i < |y| :: t[i] == y[i];
    assert |x| == |y|;
    assert s[|x| + 1..] == a && t[|y| + 1..] == b;
  }

  /** Text messages too: well-formed text is determined by its bytes. */
  lemma TextMessagesAreInjective(a: Text, b: Text)
    requires Utf8.Paired(a) && Utf8.Paired(b) && SigningBytes(Utf8.Encode(a)) == SigningBytes(Utf8.Encode(b))
    ensures a == b
  {
    hide SigningBytes, Utf8.Paired, Utf8.Encode;
    SigningBytesAreInjective(Utf8.Encode(a), Utf8.Encode(b));
    Utf8.EncodeIsInjective(a, b);
  }

  /** No signed message is the canonical encoding of a transaction, a header or a certificate. */
  lemma NeverCanonicalBytes(number: Reading, v: Value, fields: seq<Field>, body: seq<int>)
    requires EncStruct(number, v, fields).Some?
    ensures SigningBytes(body) != Utf8.Encode(EncStruct(number, v, fields).value)
  {
    hide EncFields, DecimalText, Prefix;
    var e := EncStruct(number, v, fields).value;
    assert e[0] == LBRACE;
    assert Utf8.Encode(e)[0] == LBRACE;
  }
}
