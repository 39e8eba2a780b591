/**
 Conversations in terms of requests and responses: what `Exchange` proves about bytes,
 read through the codec and the framing.
 */
module Session {
  import opened Words
  import opened Aircraft
  import opened Serialize
  import opened Exchange
  import opened Proto

  /** What the handler does with a request: a response, or -1. */
  datatype Outcome = Answer(res: Response) | HangUp

  /** The answer to the last of the requests received so far. */
  type Service = seq<Request> -> Outcome

  /** The bytes behind the k-th list of airports are whatever the buffer held. */
  type Tail = s: seq<byte> | |s| == TAIL witness Zeros(TAIL)
  type Tails = nat -> Tail

  predicate Askable(q: Request) {
    FitsInt(q.kind) && Fits(q.plane)
  }

  /** A -1 from the handler becomes an acknowledgement of -1 and the end of the connection. */
  function Reported(o: Outcome): Response {
    match o
    case Answer(res) => res
    case HangUp => Ack(-1)
  }

  /** What a client that leaves hears. */
  lemma HangUpIsRefusal(tail: Tail)
    ensures Speakable(HangUp) && ReplyOf(HangUp, tail).hangUp
    ensures ReplyOf(HangUp, tail).chunks == [HeaderBytes('a' as int, -1)]
    ensures ReplyShape(ReplyOf(HangUp, tail).chunks) && DecodeChunks(ReplyOf(HangUp, tail).chunks) == Ack(-1)
  {
    ResponseRoundTrip(Ack(-1), tail);
    hide HeaderBytes, DecodeChunks, ReplyShape;
    assert Chunks(Ack(-1), tail) == [HeaderBytes(RES_ACK, -1)];
  }

  predicate Speakable(o: Outcome) {
    Sendable(Reported(o))
  }

  /** `atc_reply` from the handler on. */
  function ReplyOf(o: Outcome, tail: Tail): Reply
    requires Speakable(o)
  {
    Reply(Chunks(Reported(o), tail), o.HangUp?)
  }

  function ReceivedAll(qs: seq<Request>): (r: seq<Request>)
    ensures |r| == |qs| && forall k :: 0 <= k < |qs| ==> r[k] == Received(qs[k])
  {
    seq(|qs|, k requires 0 <= k < |qs| => Received(qs[k]))
  }

  function Frames(qs: seq<Request>): (frames: seq<seq<byte>>)
    requires forall k :: 0 <= k < |qs| ==> Askable(qs[k])
    ensures |frames| == |qs| && forall k :: 0 <= k < |qs| ==> Askable(qs[k]) && frames[k] == RequestFrame(qs[k])
  {
    seq(|qs|, k requires 0 <= k < |qs| && Askable(qs[k]) => RequestFrame(qs[k]))
  }

  predicate Framed(frames: seq<seq<byte>>) {
    forall k :: 0 <= k < |frames| ==> |frames[k]| == MSG_LEN
  }

  function Unframed(frames: seq<seq<byte>>): (qs: seq<Request>)
    requires Framed(frames)
    ensures |qs| == |frames| && forall k :: 0 <= k < |qs| ==> qs[k] == FrameRequest(frames[k])
  {
    seq(|frames|, k requires 0 <= k < |frames| => FrameRequest(frames[k]))
  }

  /** The server child: decode what came, answer, encode. */
  function OnBytes(service: Service, tails: Tails): Handler {
    frames =>
      if Framed(frames) && Speakable(service(Unframed(frames)))
      then ReplyOf(service(Unframed(frames)), tails(|frames|))
      else Reply([], true)
  }

  lemma UnframedFrames(qs: seq<Request>)
    requires forall k :: 0 <= k < |qs| ==> Askable(qs[k])
    ensures Framed(Frames(qs)) && Unframed(Frames(qs)) == ReceivedAll(qs)
  {
    forall k | 0 <= k < |qs| ensures FrameRequest(RequestFrame(qs[k])) == Received(qs[k]) {
      RequestRoundTrip(qs[k]);
    }
    hide RequestFrame, FrameRequest, Received;
  }

  // ------------------------------------------------------------- the plan

  /** The service's answer to the k-th question. */
  function AnswerTo(service: Service, qs: seq<Request>, k: nat): Outcome
    requires k < |qs|
  {
    service(ReceivedAll(qs[..k + 1]))
  }

  /** The client's questions can be sent, the answers too, and only the last one is final. */
  ghost predicate Answerable(service: Service, qs: seq<Request>) {
    forall k :: 0 <= k < |qs| ==>
      && Askable(qs[k]) && Speakable(AnswerTo(service, qs, k))
      && (AnswerTo(service, qs, k).HangUp? ==> k == |qs| - 1)
  }

  function Plan(service: Service, tails: Tails, qs: seq<Request>): (plan: seq<Turn>)
    requires Answerable(service, qs)
    ensures |plan| == |qs|
    ensures forall k :: 0 <= k < |qs| ==>
      plan[k] == Turn(RequestFrame(qs[k]), ReplyOf(AnswerTo(service, qs, k), tails(k + 1)))
  {
    seq(|qs|, k requires 0 <= k < |qs| =>
        Turn(RequestFrame(qs[k]), ReplyOf(AnswerTo(service, qs, k), tails(k + 1))))
  }

  lemma PlanIsWellFormed(service: Service, tails: Tails, qs: seq<Request>)
    requires Answerable(service, qs)
    ensures WellFormed(Plan(service, tails, qs))
  {
    hide RequestFrame, Chunks, ReplyShape, ReceivedAll, Sendable;
    var plan := Plan(service, tails, qs);
    forall k | 0 <= k < |qs|
      ensures |plan[k].request| == MSG_LEN && ReplyShape(plan[k].reply.chunks)
      ensures plan[k].reply.hangUp ==> k == |plan| - 1
    {
      ChunksAreShaped(Reported(AnswerTo(service, qs, k)), tails(k + 1));
    }
  }

  lemma PlanRequests(service: Service, tails: Tails, qs: seq<Request>, k: nat)
    requires Answerable(service, qs) && k < |qs|
    ensures Requests(Plan(service, tails, qs))[..k + 1] == Frames(qs[..k + 1])
    ensures Requests(Plan(service, tails, qs)) == Frames(qs)
  {
    hide RequestFrame, ReplyOf, Speakable, ReceivedAll;
  }

  lemma PlanIsAnswered(service: Service, tails: Tails, qs: seq<Request>)
    requires Answerable(service, qs)
    ensures Answers(OnBytes(service, tails), Plan(service, tails, qs))
  {
    hide RequestFrame, FrameRequest, ReplyOf, Speakable, ReceivedAll, Requests, Unframed, Framed;
    var plan, handler := Plan(service, tails, qs), OnBytes(service, tails);
    forall k | 0 <= k < |qs| ensures handler(Requests(plan)[..k + 1]) == plan[k].reply {
      PlanRequests(service, tails, qs, k);
      UnframedFrames(qs[..k + 1]);
    }
  }

  /** For every interleaving of the two programs over the two rings, byte by byte: each
      answer the client has decoded is what the service said to exactly the requests made
      so far, and the only way for both sides to stop is to have answered everything and
      left both rings empty and in step. */
  lemma SessionIsFaithful(service: Service, tails: Tails, qs: seq<Request>, run: seq<System>)
    requires Answerable(service, qs)
    requires IsRun(Plan(service, tails, qs), OnBytes(service, tails), run)
    ensures var y := run[|run| - 1];
      && |y.c.log| == y.c.turn <= |qs|
      && (forall k :: 0 <= k < y.c.turn ==>
            && ReplyShape(y.c.log[k])
            && DecodeChunks(y.c.log[k]) == Delivered(Reported(AnswerTo(service, qs, k))))
      && y.s.received <= Frames(qs)
      && (Halted(Frames(qs), OnBytes(service, tails), y) ==>
            && y.c.turn == |qs|
            && (y.s.pc == SClosed <==> qs != [] && AnswerTo(service, qs, |qs| - 1).HangUp?)
            && AtRest(y.up, y.c.tx, y.s.rx) && AtRest(y.down, y.s.tx, y.c.rx))
  {
    hide RequestFrame, Chunks, ReplyShape, ReceivedAll, AtRest, OnBytes, Requests, Shaped, Halted,
         DecodeChunks, Delivered;
    var plan, y := Plan(service, tails, qs), run[|run| - 1];
    PlanIsWellFormed(service, tails, qs);
    PlanIsAnswered(service, tails, qs);
    ConversationIsFaithful(plan, OnBytes(service, tails), run);
    assert Requests(plan) == Frames(qs) by { SameRequests(service, tails, qs); }
    forall k | 0 <= k < y.c.turn
      ensures ReplyShape(y.c.log[k]) && DecodeChunks(y.c.log[k]) == Delivered(Reported(AnswerTo(service, qs, k)))
    {
      assert y.c.log[k] == plan[k].reply.chunks;
      ResponseRoundTrip(Reported(AnswerTo(service, qs, k)), tails(k + 1));
    }
  }

  lemma SameRequests(service: Service, tails: Tails, qs: seq<Request>)
    requires Answerable(service, qs)
    ensures Requests(Plan(service, tails, qs)) == Frames(qs)
  {
    hide RequestFrame, ReplyOf, Speakable, ReceivedAll;
  }
}
