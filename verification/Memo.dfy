/** The decoded body of a response: computed once, remembered, and put in place of the encoded one. */
module Memo {
  import opened Common
  import Rewrite

  /** Headers under their canonical names; absent and empty read alike. */
  type Header = map<string, Bytes>

  const CONTENT_ENCODING: string := "Content-Encoding"
  const CONTENT_LENGTH: string := "Content-Length"
  const TRANSFER_ENCODING: string := "Transfer-Encoding"
  const IDENTITY: Bytes := [105, 100, 101, 110, 116, 105, 116, 121]

  lemma IdentityText()
    ensures IDENTITY == Rewrite.Text("identity")
  {
  }

  datatype Decoding = Plain(bytes: Bytes) | Undecodable(error: int)

  /** What DecodedBody returns: nil without an error, bytes, or an error. */
  datatype Answer = Nil | Body(bytes: Bytes) | Error(error: int)

  function Get(h: Option<Header>, key: string): Bytes {
    if h.Some? && key in h.value then h.value[key] else []
  }

  /** The headers of a body of n bytes that is not encoded. */
  function PlainHeader(h: Header, n: nat): Header {
    (h - {CONTENT_ENCODING})[CONTENT_LENGTH := Rewrite.Dec(n)] - {TRANSFER_ENCODING}
  }

  /** A header that is nil stays nil. */
  function Plainly(h: Option<Header>, n: nat): Option<Header> {
    if h.Some? then Some(PlainHeader(h.value, n)) else None
  }

  class Response {
    const decode: (Bytes, Bytes) -> Decoding
    var header: Option<Header>
    var body: Option<Bytes>
    var decodedBody: Option<Bytes>
    var decoded: bool
    var decodedErr: Option<int>

    constructor (header: Option<Header>, body: Option<Bytes>, decode: (Bytes, Bytes) -> Decoding)
      ensures this.header == header && this.body == body && this.decode == decode
      ensures decodedBody.None? && decodedErr.None? && !decoded
    {
      this.header, this.body, this.decode := header, body, decode;
      decodedBody, decoded, decodedErr := None, false, None;
    }

    /** The meaning of the body under its headers, with nothing remembered. */
    ghost function Fresh(): Answer
      reads this
    {
      if body.None? then Nil
      else
        var enc := Get(header, CONTENT_ENCODING);
        if body.value == [] || enc == [] || enc == IDENTITY then Body(body.value)
        else
          match decode(enc, body.value)
          case Plain(bytes) => Body(bytes)
          case Undecodable(error) => Error(error)
    }

    /** What the next call returns: the remembered answer, or else the meaning. */
    ghost function Answer(): Answer
      reads this
    {
      if decodedBody.Some? then Body(decodedBody.value)
      else if decodedErr.Some? then Error(decodedErr.value)
      else Fresh()
    }

    method DecodedBody() returns (r: Answer)
      modifies this`decodedBody, this`decoded, this`decodedErr
      ensures r == old(Answer()) && Answer() == r
      // a first call: no body is nil, a plain or empty one is itself, and any other what decode makes of it
      ensures old(decodedBody).None? && old(decodedErr).None? ==>
                match body
                case None => r == Nil && decodedBody.None? && decodedErr.None?
                case Some(bytes) =>
                  var encoding := if header.Some? && "Content-Encoding" in header.value then header.value["Content-Encoding"] else [];
                  if bytes == [] || encoding == [] || encoding == Rewrite.Text("identity") then r == Body(bytes) && decoded == old(decoded)
                  else
                    match decode(encoding, bytes)
                    case Plain(plain) => r == Body(plain) && decoded
                    case Undecodable(error) => r == Error(error)
      ensures r.Body? ==> decodedBody == Some(r.bytes)
      ensures r.Error? ==> decodedErr == Some(r.error)
    {
      IdentityText();
      if decodedBody.Some? {
        return Body(decodedBody.value);
      }
      if decodedErr.Some? {
        return Error(decodedErr.value);
      }
      if body.None? {
        return Nil;
      }
      if |body.value| == 0 {
        decodedBody := body;
        return Body(body.value);
      }
      var enc := Get(header, CONTENT_ENCODING);
      if enc == [] || enc == IDENTITY {
        decodedBody := body;
        return Body(body.value);
      }
      var decoding := decode(enc, body.value);
      match decoding
      case Undecodable(error) =>
        decodedErr := Some(error);
        return Error(error);
      case Plain(bytes) =>
        decodedBody := Some(bytes);
        decoded := true;
        return Body(bytes);
    }

    /** Setting a header of a nil map panics; the body has been replaced by then. */
    method ReplaceToDecodedBody() returns (panicked: bool)
      modifies this
      ensures Answer() == old(Answer())
      ensures panicked <==> Answer().Body? && old(header).None?
      ensures Answer().Body? ==> body == Some(Answer().bytes) && header == Plainly(old(header), |Answer().bytes|)
      ensures Answer().Body? ==> Fresh() == Answer()
      ensures !Answer().Body? ==> body == old(body) && header == old(header)
    {
      var r := DecodedBody();
      if !r.Body? {
        return false;
      }
      body := Some(r.bytes);
      if header.None? {
        return true;
      }
      header := Some(header.value - {CONTENT_ENCODING});
      header := Some(header.value[CONTENT_LENGTH := Rewrite.Dec(|r.bytes|)]);
      header := Some(header.value - {TRANSFER_ENCODING});
      PlainHeaderIsPlain(old(header.value), |r.bytes|);
      return false;
    }

    /** Any sequence of the two calls, panics recovered: true for DecodedBody, false for ReplaceToDecodedBody. */
    method Calls(calls: seq<bool>) returns (answers: seq<Answer>)
      modifies this
      ensures Answer() == old(Answer())
      ensures |answers| == multiset(calls)[true]
      ensures forall a :: a in answers ==> a == old(Answer())
      ensures false !in calls || !Answer().Body? ==> body == old(body) && header == old(header)
      ensures false in calls && Answer().Body? ==> body == Some(Answer().bytes) && header == Plainly(old(header), |Answer().bytes|)
    {
      answers := [];
      for k := 0 to |calls|
        invariant Answer() == old(Answer())
        invariant |answers| == multiset(calls[..k])[true]
        invariant forall a :: a in answers ==> a == old(Answer())
        invariant false !in calls[..k] || !Answer().Body? ==> body == old(body) && header == old(header)
        invariant false in calls[..k] && Answer().Body? ==> body == Some(Answer().bytes) && header == Plainly(old(header), |Answer().bytes|)
      {
        assert calls[..k + 1] == calls[..k] + [calls[k]];
        if calls[k] {
          var a := DecodedBody();
          answers := answers + [a];
        } else {
          if old(header).Some? {
            PlainHeaderIsPlain(old(header.value), if Answer().Body? then |Answer().bytes| else 0);
          }
          var panicked := ReplaceToDecodedBody();
        }
      }
      assert calls[..|calls|] == calls;
    }
  }

  /** The headers after a replace: the length is that of the body, no encoding is left, and a second replace changes nothing. */
  lemma PlainHeaderIsPlain(h: Header, n: nat)
    ensures var p := PlainHeader(h, n);
            && "Content-Length" in p && Rewrite.Value(p["Content-Length"]) == n && Rewrite.Canonical(p["Content-Length"])
            && "Content-Encoding" !in p && "Transfer-Encoding" !in p
            && PlainHeader(p, n) == p
            && forall key :: key !in {"Content-Length", "Content-Encoding", "Transfer-Encoding"} ==>
                 (key in p <==> key in h) && (key in h ==> p[key] == h[key])
  {
    assert CONTENT_LENGTH[0] == 'C' && TRANSFER_ENCODING[0] == 'T';
    assert CONTENT_LENGTH[8] == 'L' && CONTENT_ENCODING[8] == 'E';
    Rewrite.DecReadsBack(n);
    Rewrite.DecIsTheNumeral([], n);
    var p := PlainHeader(h, n);
    assert PlainHeader(p, n) == p;
  }
}
