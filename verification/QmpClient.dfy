/** The QMP command connection of `qmp.rs`: one reply per command on a stream
    that events are mixed into, and what a read time-out does to the pairing. */
module QmpClient {
  import opened Basics

  /** A line from the server. A line with an `event` key is an event whatever
      else it holds; `Malformed` is one that is no JSON or no reply object. */
  datatype Line = Event | Return(value: string) | Failure(kind: string, desc: string) | Neither | Malformed

  datatype QmpError = CommandFailed(kind: string, desc: string) | ParseError | TimedOut | ConnectionClosed

  type Answer = Result<string, QmpError>

  /** What `execute_raw` makes of a reply line. */
  function Interpret(l: Line): Answer
    requires !l.Event?
  {
    match l
    case Return(value) => Ok(value)
    case Failure(kind, desc) => Err(CommandFailed(kind, desc))
    case Neither => Err(ParseError)
    case Malformed => Err(ParseError)
  }

  /** What a reply line must be answered with. */
  ghost predicate AnswerFor(l: Line, a: Answer) {
    && (forall v :: a == Ok(v) <==> l == Return(v))
    && (forall k, d :: a == Err(CommandFailed(k, d)) <==> l == Failure(k, d))
    && (a == Err(ParseError) <==> l in {Neither, Malformed})
  }

  lemma InterpretAnswers(l: Line)
    requires !l.Event?
    ensures AnswerFor(l, Interpret(l))
  {}

  /** The replies among some lines, in order. */
  function Replies(lines: seq<Line>): (r: seq<Line>)
    ensures forall i :: 0 <= i < |r| ==> !r[i].Event?
  {
    if lines == [] then []
    else if lines[0].Event? then Replies(lines[1..])
    else [lines[0]] + Replies(lines[1..])
  }

  lemma {:induction false} RepliesConcat(a: seq<Line>, b: seq<Line>)
    ensures Replies(a + b) == Replies(a) + Replies(b)
  {
    if a == [] {
      assert a + b == b;
    } else {
      RepliesConcat(a[1..], b);
      assert (a + b)[0] == a[0] && (a + b)[1..] == a[1..] + b;
      assert [a[0]] + (Replies(a[1..]) + Replies(b)) == ([a[0]] + Replies(a[1..])) + Replies(b);
    }
  }

  /** Exactly the lines that are no events are replies. */
  lemma {:induction false} RepliesAre(lines: seq<Line>)
    ensures forall l :: multiset(Replies(lines))[l] == if l.Event? then 0 else multiset(lines)[l]
  {
    if lines != [] {
      RepliesAre(lines[1..]);
      assert lines == [lines[0]] + lines[1..];
    }
  }

  /** What the server sends in response to one command: `early` before a read
      timeout would strike, `late` after it. */
  datatype Response = Response(early: seq<Line>, late: seq<Line>)

  /** Everything after the first reply, or nothing when there is none. */
  function AfterReply(lines: seq<Line>): seq<Line> {
    if lines == [] then [] else if lines[0].Event? then AfterReply(lines[1..]) else lines[1..]
  }

  lemma {:induction false} AfterReplyDropsOne(lines: seq<Line>)
    requires Replies(lines) != []
    ensures Replies(AfterReply(lines)) == Replies(lines)[1..]
  {
    if lines[0].Event? { AfterReplyDropsOne(lines[1..]); }
  }

  /** The read time-out strikes when it is set and no reply is there in time. */
  predicate Strikes(unread: seq<Line>, x: Response, timeout: bool) {
    timeout && Replies(unread + x.early) == []
  }

  /** One `execute_raw` on the unread lines. Without replies and without a
      time-out the server must have closed the connection. */
  function Exchange(unread: seq<Line>, x: Response, timeout: bool): (Answer, seq<Line>) {
    if Strikes(unread, x, timeout) then (Err(TimedOut), x.late)
    else
      var lines := unread + (x.early + x.late);
      if Replies(lines) == [] then (Err(ConnectionClosed), []) else (Interpret(Replies(lines)[0]), AfterReply(lines))
  }

  lemma ExchangeAnswers(unread: seq<Line>, x: Response, timeout: bool)
    ensures var intime, all := Replies(unread + x.early), Replies(unread + (x.early + x.late));
            var (r, left) := Exchange(unread, x, timeout);
            && (timeout && intime == [] ==> r == Err(TimedOut) && left == x.late)
            && (!timeout && all == [] ==> r == Err(ConnectionClosed) && left == [])
            && ((!timeout || intime != []) && all != [] ==> AnswerFor(all[0], r) && Replies(left) == all[1..])
  {
    var lines := unread + (x.early + x.late);
    if Replies(lines) != [] {
      AfterReplyDropsOne(lines);
      InterpretAnswers(Replies(lines)[0]);
    }
  }

  class QmpClient {
    var unread: seq<Line>
    var written: seq<string>
    const readTimeout: bool

    constructor (readTimeout: bool)
      ensures unread == [] && written == [] && this.readTimeout == readTimeout
    {
      this.readTimeout := readTimeout;
      unread, written := [], [];
    }

    /** `read_reply_skipping_events` on the lines that are there. */
    method ReadReplySkippingEvents() returns (reply: Option<Line>)
      modifies this`unread
      ensures unread == AfterReply(old(unread))
      ensures reply == (if Replies(old(unread)) == [] then None else Some(Replies(old(unread))[0]))
    {
      while unread != []
        invariant Replies(unread) == Replies(old(unread)) && AfterReply(unread) == AfterReply(old(unread))
        decreases |unread|
      {
        var line := unread[0];
        if !line.Event? {
          unread := unread[1..];
          return Some(line);
        }
        unread := unread[1..];
      }
      return None;
    }

    method ExecuteRaw(command: string, x: Response) returns (r: Answer)
      modifies this
      ensures written == old(written) + [command]
      ensures (r, unread) == Exchange(old(unread), x, readTimeout)
      ensures var intime, all := Replies(old(unread) + x.early), Replies(old(unread) + (x.early + x.late));
              && (readTimeout && intime == [] ==> r == Err(TimedOut) && unread == x.late)
              && (!readTimeout && all == [] ==> r == Err(ConnectionClosed) && unread == [])
              && ((!readTimeout || intime != []) && all != [] ==> AnswerFor(all[0], r) && Replies(unread) == all[1..])
    {
      ExchangeAnswers(unread, x, readTimeout);
      written := written + [command];
      assert unread + (x.early + x.late) == unread + x.early + x.late;
      unread := unread + x.early;
      if readTimeout && Replies(unread) == [] {
        // The timed-out read consumed the events that were there.
        unread := x.late;
        return Err(TimedOut);
      }
      unread := unread + x.late;
      var reply := ReadReplySkippingEvents();
      match reply {
        case None => unread := []; r := Err(ConnectionClosed);
        case Some(line) => r := Interpret(line);
      }
    }
  }

  // ----- runs of commands -----

  datatype Conversation = Conversation(answers: seq<Answer>, unread: seq<Line>)

  function Converse(xs: seq<Response>, timeout: bool): Conversation {
    if xs == [] then Conversation([], [])
    else
      var c := Converse(xs[..|xs| - 1], timeout);
      var (answer, unread) := Exchange(c.unread, xs[|xs| - 1], timeout);
      Conversation(c.answers + [answer], unread)
  }

  /** The server answers command `k` with `replies[k]`, once, among any number
      of events anywhere. */
  ghost predicate AnswersOnce(xs: seq<Response>, replies: seq<Line>) {
    && |replies| == |xs|
    && forall k :: 0 <= k < |xs| ==> !replies[k].Event? && Replies(xs[k].early + xs[k].late) == [replies[k]]
  }

  /** Nobody ever waited in vain. */
  ghost predicate NoneLate(xs: seq<Response>, timeout: bool) {
    timeout ==> forall k :: 0 <= k < |xs| ==> Replies(xs[k].early) != []
  }

  /** When the time-out strikes, in terms of the replies before and in time. */
  lemma StrikesIff(unread: seq<Line>, x: Response, timeout: bool)
    ensures Strikes(unread, x, timeout) <==> timeout && Replies(unread) == [] && Replies(x.early) == []
  {
    RepliesConcat(unread, x.early);
  }

  /** What one exchange reads, in terms of the replies before and in it. */
  lemma ExchangeReads(unread: seq<Line>, x: Response, timeout: bool)
    requires !Strikes(unread, x, timeout) && Replies(unread) + Replies(x.early + x.late) != []
    ensures var all := Replies(unread) + Replies(x.early + x.late);
            Exchange(unread, x, timeout).0 == Interpret(all[0]) && Replies(Exchange(unread, x, timeout).1) == all[1..]
  {
    var answer := x.early + x.late;
    RepliesConcat(unread, answer);
    AfterReplyDropsOne(unread + answer);
  }

  lemma ExchangeInSync(unread: seq<Line>, x: Response, reply: Line, timeout: bool)
    requires Replies(unread) == [] && !reply.Event? && Replies(x.early + x.late) == [reply]
    requires timeout ==> Replies(x.early) != []
    ensures var (answer, left) := Exchange(unread, x, timeout);
            answer == Interpret(reply) && Replies(left) == []
  {
    StrikesIff(unread, x, timeout);
    assert [] + [reply] == [reply];
    ExchangeReads(unread, x, timeout);
  }

  /** Pairing: while no read timed out, the k-th command gets the reply to the
      k-th command, and no reply is left unread. */
  lemma {:induction false} RepliesPair(xs: seq<Response>, replies: seq<Line>, timeout: bool)
    requires AnswersOnce(xs, replies) && NoneLate(xs, timeout)
    ensures var c := Converse(xs, timeout);
            && |c.answers| == |xs| && Replies(c.unread) == []
            && forall k :: 0 <= k < |xs| ==> AnswerFor(replies[k], c.answers[k])
  {
    if xs != [] {
      var n := |xs| - 1;
      InterpretAnswers(replies[n]);
      AnswersPrefix(xs, replies, n);
      RepliesPair(xs[..n], replies[..n], timeout);
      ExchangeInSync(Converse(xs[..n], timeout).unread, xs[n], replies[n], timeout);
    }
  }

  lemma ExchangeBehind(unread: seq<Line>, x: Response, stale: Line, reply: Line)
    requires Replies(unread) == [stale] && !stale.Event? && !reply.Event? && Replies(x.early + x.late) == [reply]
    ensures var (answer, left) := Exchange(unread, x, true);
            answer == Interpret(stale) && Replies(left) == [reply]
  {
    StrikesIff(unread, x, true);
    ExchangeReads(unread, x, true);
    assert ([stale] + [reply])[1..] == [reply];
  }

  lemma ExchangeStruck(unread: seq<Line>, x: Response, reply: Line)
    requires Replies(unread) == [] && Replies(x.early) == [] && Replies(x.early + x.late) == [reply]
    ensures var (answer, left) := Exchange(unread, x, true);
            answer == Err(TimedOut) && Replies(left) == [reply]
  {
    StrikesIff(unread, x, true);
    RepliesConcat(x.early, x.late);
  }

  /** What command `k` gets when command `f` was the first to time out. */
  ghost predicate GetsBehind(replies: seq<Line>, f: nat, k: nat, a: Answer)
    requires k < |replies|
  {
    if k < f then AnswerFor(replies[k], a) else if k == f then a == Err(TimedOut) else AnswerFor(replies[k - 1], a)
  }

  ghost predicate Behind(c: Conversation, replies: seq<Line>, f: nat, n: nat) {
    && f < n <= |replies| && |c.answers| == n && Replies(c.unread) == [replies[n - 1]]
    && forall k :: 0 <= k < n ==> GetsBehind(replies, f, k, c.answers[k])
  }

  lemma AnswersPrefix(xs: seq<Response>, replies: seq<Line>, n: nat)
    requires AnswersOnce(xs, replies) && n <= |xs|
    ensures AnswersOnce(xs[..n], replies[..n])
  {
    forall k | 0 <= k < n
      ensures !replies[..n][k].Event? && Replies(xs[..n][k].early + xs[..n][k].late) == [replies[..n][k]]
    {
      assert xs[..n][k] == xs[k] && replies[..n][k] == replies[k];
    }
  }

  lemma {:induction false} BehindStart(xs: seq<Response>, replies: seq<Line>)
    requires AnswersOnce(xs, replies) && xs != []
    requires NoneLate(xs[..|xs| - 1], true) && Replies(xs[|xs| - 1].early) == []
    ensures Behind(Converse(xs, true), replies, |xs| - 1, |xs|)
  {
    var f := |xs| - 1;
    RepliesPair(xs[..f], replies[..f], true);
    ExchangeStruck(Converse(xs[..f], true).unread, xs[f], replies[f]);
  }

  /** One more command on a connection that is behind by one. */
  lemma BehindExchange(c: Conversation, x: Response, replies: seq<Line>, f: nat)
    requires |replies| > 0 && forall i :: 0 <= i < |replies| ==> !replies[i].Event?
    requires Behind(c, replies[..|replies| - 1], f, |replies| - 1)
    requires Replies(x.early + x.late) == [replies[|replies| - 1]]
    ensures var (answer, unread) := Exchange(c.unread, x, true);
            Behind(Conversation(c.answers + [answer], unread), replies, f, |replies|)
  {
    var n := |replies| - 1;
    ExchangeBehind(c.unread, x, replies[n - 1], replies[n]);
    InterpretAnswers(replies[n - 1]);
    forall k | 0 <= k < n ensures GetsBehind(replies, f, k, c.answers[k]) {
      assert GetsBehind(replies[..n], f, k, c.answers[k]);
    }
  }

  lemma {:induction false} BehindStep(xs: seq<Response>, replies: seq<Line>, f: nat)
    requires AnswersOnce(xs, replies) && f < |xs| - 1
    requires Behind(Converse(xs[..|xs| - 1], true), replies[..|xs| - 1], f, |xs| - 1)
    ensures Behind(Converse(xs, true), replies, f, |xs|)
  {
    BehindExchange(Converse(xs[..|xs| - 1], true), xs[|xs| - 1], replies, f);
  }

  /** After the first time-out, at command `f`, the connection is behind by one
      for good: no read times out again and every later command gets the reply
      to the command before it. */
  lemma {:induction false} BehindByOne(xs: seq<Response>, replies: seq<Line>, f: nat)
    requires AnswersOnce(xs, replies) && f < |xs|
    requires NoneLate(xs[..f], true) && Replies(xs[f].early) == []
    ensures Behind(Converse(xs, true), replies, f, |xs|)
  {
    var n := |xs| - 1;
    if f == n {
      BehindStart(xs, replies);
    } else {
      assert xs[..n][..f] == xs[..f] && xs[..n][f] == xs[f];
      AnswersPrefix(xs, replies, n);
      BehindByOne(xs[..n], replies[..n], f);
      BehindStep(xs, replies, f);
    }
  }
}
