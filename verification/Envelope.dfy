/** The stored form of a token (backend/internal/integrations/atlassian/crypto.go):
    base64(nonce ‖ sealed). The cipher and base64 are parameters; a Go string is
    its bytes, written here as a string. */
module Envelope {
  import opened Wrappers

  datatype Primitives = Primitives(
    nonceSize: nat, overhead: nat,
    seal: (string, string) -> string, open: (string, string) -> Option<string>,
    encode: string -> string, decode: string -> Option<string>)

  datatype Reason = NotBase64 | TooShort | NotAuthentic

  datatype Opened = Text(text: string) | Refused(reason: Reason)

  /** An authenticated cipher opens exactly what it sealed, and base64 decodes what
      it encoded. */
  ghost predicate Lawful(p: Primitives) {
    && (forall nonce, text :: |nonce| == p.nonceSize ==> |p.seal(nonce, text)| == |text| + p.overhead)
    && (forall nonce, sealed, text :: |nonce| == p.nonceSize ==>
          (p.open(nonce, sealed) == Some(text) <==> sealed == p.seal(nonce, text)))
    && (forall bytes :: p.decode(p.encode(bytes)) == Some(bytes))
    && p.decode("") == Some("")
    && p.nonceSize > 0
  }

  function Encrypt(p: Primitives, nonce: string, plaintext: string): string {
    if plaintext == "" then "" else p.encode(nonce + p.seal(nonce, plaintext))
  }

  function Decrypt(p: Primitives, enc: string): Opened {
    if enc == "" then Text("")
    else
      var envelope := p.decode(enc);
      if envelope.None? then Refused(NotBase64)
      else if |envelope.value| < p.nonceSize + p.overhead then Refused(TooShort)
      else
        var text := p.open(envelope.value[..p.nonceSize], envelope.value[p.nonceSize..]);
        if text.None? then Refused(NotAuthentic) else Text(text.value)
  }

  /** Decryption inverts encryption, the empty text included. */
  lemma RoundTrip(p: Primitives, nonce: string, text: string)
    requires Lawful(p) && |nonce| == p.nonceSize
    ensures Decrypt(p, Encrypt(p, nonce, text)) == Text(text)
  {
    if text != "" {
      var sealed := p.seal(nonce, text);
      assert p.decode(p.encode(nonce + sealed)) == Some(nonce + sealed);
      assert p.encode(nonce + sealed) != "" by { assert |nonce + sealed| > 0; }
      assert (nonce + sealed)[..p.nonceSize] == nonce && (nonce + sealed)[p.nonceSize..] == sealed;
      assert |sealed| == |text| + p.overhead && p.open(nonce, sealed) == Some(text);
    }
  }

  /** And nothing else decrypts: a stored value opens to a text only if it is empty
      or decodes to a nonce followed by that text sealed under it. */
  lemma DecryptsIff(p: Primitives, enc: string, text: string)
    requires Lawful(p)
    ensures Decrypt(p, enc) == Text(text) <==>
      if enc == "" then text == ""
      else exists nonce :: |nonce| == p.nonceSize && p.decode(enc) == Some(nonce + p.seal(nonce, text))
  {
    if enc != "" && Decrypt(p, enc) == Text(text) {
      var envelope := p.decode(enc).value;
      var nonce := envelope[..p.nonceSize];
      assert envelope == nonce + envelope[p.nonceSize..];
      assert p.decode(enc) == Some(nonce + p.seal(nonce, text));
    } else if nonce :| enc != "" && |nonce| == p.nonceSize && p.decode(enc) == Some(nonce + p.seal(nonce, text)) {
      var sealed := p.seal(nonce, text);
      assert (nonce + sealed)[..p.nonceSize] == nonce && (nonce + sealed)[p.nonceSize..] == sealed;
      assert |sealed| == |text| + p.overhead && p.open(nonce, sealed) == Some(text);
    }
  }
}
