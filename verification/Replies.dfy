/** The reply side of one request: what is written, and what of it arrives. */
module Replies {
  import opened Common
  import opened Readers
  import opened Addons

  /** As many bytes as there is room for. */
  function Clip(room: Option<nat>, b: Bytes): (r: Bytes)
    ensures r <= b && (r == b <==> room.None? || |b| <= room.value)
  {
    if room.None? || |b| <= room.value then b else b[..room.value]
  }

  function ReaderBytes(r: Option<Source>): Bytes {
    if r.Some? then Content(r.value) else []
  }

  function BodyBytes(b: Option<Bytes>): Bytes {
    if b.Some? then b.value else []
  }

  function OwnBytes(r: Response): Bytes {
    ReaderBytes(r.bodyReader) + BodyBytes(r.body)
  }

  function Values(h: Header, key: string): seq<string> {
    if key in h then h[key] else []
  }

  function AddAll(h: Header, more: Header): Header {
    map key | key in h.Keys + more.Keys :: Values(h, key) + Values(more, key)
  }

  function WithClose(h: Header, close: bool): Header {
    if close then AddAll(h, map["Connection" := ["close"]]) else h
  }

  /** What has arrived, and how much each transfer of a body gets across before it fails; None is everything. */
  datatype Output = Output(statuses: seq<int>, header: Header, body: Bytes, takes: nat -> Option<nat>, transfers: nat)

  function WithStatus(o: Output, status: int): Output {
    o.(statuses := o.statuses + [status])
  }

  function WithHead(o: Output, response: Response): Output {
    WithStatus(o.(header := WithClose(AddAll(o.header, response.header), response.close)), response.status)
  }

  function WithBytes(o: Output, data: Bytes): Output {
    o.(body := o.body + Clip(o.takes(o.transfers), data), transfers := o.transfers + 1)
  }

  function WithReader(o: Output, r: Option<Source>): Output {
    if r.Some? then WithBytes(o, Content(r.value)) else o
  }

  /** Headers, one status, and the three places a body may come from. */
  function Replied(o: Output, response: Response, reader: Option<Source>): Output {
    var o' := WithReader(WithReader(WithHead(o, response), reader), response.bodyReader);
    if BodyBytes(response.body) == [] then o' else WithBytes(o', response.body.value)
  }

  /** The values of a header, none if it is missing. */
  lemma ValuesOfSum(h: Header, more: Header, key: string)
    ensures Values(AddAll(h, more), key) == Values(h, key) + Values(more, key)
  {
    if key !in h && key !in more {
      assert Values(h, key) + Values(more, key) == [];
    }
  }

  /** One more status, the response's; each header keeps its values and gets the response's, in order, and then the close. */
  lemma HeadIsTheResponse(o: Output, response: Response, reader: Option<Source>, key: string)
    ensures var now := Replied(o, response, reader);
            && now.statuses == o.statuses + [response.status]
            && var added := if key in response.header then response.header[key] else [];
               var close := if response.close && key == "Connection" then ["close"] else [];
               Values(now.header, key) == Values(o.header, key) + added + close
  {
    var h := AddAll(o.header, response.header);
    ValuesOfSum(o.header, response.header, key);
    if response.close {
      ValuesOfSum(h, map["Connection" := ["close"]], key);
    } else {
      assert Values(h, key) + [] == Values(h, key);
    }
  }

  /** All that was to be written arrives if no transfer fails. */
  lemma AllArrives(o: Output, response: Response, reader: Option<Source>)
    requires forall k :: o.takes(k).None?
    ensures Replied(o, response, reader).body == o.body + (ReaderBytes(reader) + OwnBytes(response))
  {
  }

  /** If the body comes from one place, a part from its beginning arrives, whichever transfers fail. */
  lemma PrefixArrives(o: Output, response: Response, reader: Option<Source>)
    requires response.bodyReader.None? && (reader.None? || response.body.None?)
    ensures var now := Replied(o, response, reader).body;
            o.body <= now && now[|o.body|..] <= ReaderBytes(reader) + OwnBytes(response)
  {
  }

  class ResponseWriter {
    var statuses: seq<int>
    var header: Header
    var body: Bytes
    var transfers: nat
    const takes: nat -> Option<nat>

    constructor (takes: nat -> Option<nat>)
      ensures Out() == Output([], map[], [], takes, 0)
    {
      statuses, header, body, transfers, this.takes := [], map[], [], 0, takes;
    }

    function Out(): Output
      reads this
    {
      Output(statuses, header, body, takes, transfers)
    }

    method WriteHeader(status: int)
      modifies this`statuses
      ensures Out() == WithStatus(old(Out()), status)
    {
      statuses := statuses + [status];
    }

    /** One transfer; when it fails, the rest is lost, the error is logged, and the handler goes on. */
    method Write(data: Bytes)
      modifies this`body, this`transfers
      ensures Out() == WithBytes(old(Out()), data)
    {
      body, transfers := body + Clip(takes(transfers), data), transfers + 1;
    }

    /** io.Copy: what the reader yields is written, also when it breaks at the end. */
    method CopyFrom(r: Option<Source>)
      modifies this`body, this`transfers
      ensures Out() == WithReader(old(Out()), r)
    {
      if r.Some? {
        Write(Content(r.value));
      }
    }

    /** The reply closure. */
    method Reply(response: Response, reader: Option<Source>)
      modifies this
      ensures Out() == Replied(old(Out()), response, reader)
      ensures statuses == old(statuses) + [response.status]
    {
      header := WithClose(AddAll(header, response.header), response.close);
      WriteHeader(response.status);
      CopyFrom(reader);
      CopyFrom(response.bodyReader);
      if response.body.Some? && |response.body.value| > 0 {
        Write(response.body.value);
      }
    }
  }

  /** The done channel of a flow. */
  class Done {
    var closes: nat

    constructor ()
      ensures closes == 0
    {
      closes := 0;
    }

    method Close()
      requires closes == 0  // closing a closed channel panics
      modifies this
      ensures closes == old(closes) + 1
    {
      closes := closes + 1;
    }
  }
}
