/** Registrations waiting for the backend: a request is answered later, found again by its serial.

    The SIP thread draws a serial, stores the prepared response and publishes the request in three
    separate steps; answers and other draws come in between. */
module Registrations {
  import opened Registry

  /** Responses and requests carry the running number of their serial. */
  datatype Request = Request(ord: nat, addr: string)
  datatype Answer = Answer(ord: nat, addr: string, status: int, code: int)
  datatype Flight = Ready | HasSerial(q: Request) | HasStored(q: Request)

  datatype Pend = Pend(issued: nat, store: map<nat, Request>, flight: Flight,
                       published: seq<Request>, answers: seq<Answer>)

  datatype Act = Draw(addr: string) | Store | Publish | Respond(sn: nat, code: int) | OtherDraw

  function Start(issued: nat): Pend { Pend(issued, map[], Ready, [], []) }

  function Serial(q: Request): nat { q.ord % SERIALS }

  /** The status the camera sees. */
  function StatusFor(code: int): int { if code == 200 then 200 else 401 }

  function Do(p: Pend, a: Act): Pend {
    match a
    case Draw(addr) =>
      if p.flight.Ready?
      then p.(issued := p.issued + 1, flight := HasSerial(Request(p.issued, addr))) else p
    case Store =>
      if p.flight.HasSerial?
      then
        var q := p.flight.q;
        p.(store := if Serial(q) in p.store then p.store else p.store[Serial(q) := q], flight := HasStored(q))
      else p
    case Publish =>
      if p.flight.HasStored? then p.(published := p.published + [p.flight.q], flight := Ready) else p
    case Respond(sn, code) =>
      if sn in p.store
      then
        var q := p.store[sn];
        p.(store := p.store - {sn}, answers := p.answers + [Answer(q.ord, q.addr, StatusFor(code), code)])
      else p
    case OtherDraw => p.(issued := p.issued + 1)
  }

  function Run(p: Pend, acts: seq<Act>): Pend
    decreases acts
  {
    if acts == [] then p else Run(Do(p, acts[0]), acts[1..])
  }

  // ---------------------------------------------------------------- safety

  /** The request has been published, or its response has been stored and it will be next. */
  predicate Asked(p: Pend, q: Request) { q in p.published || p.flight == HasStored(q) }

  predicate AnsweredNumber(p: Pend, ord: nat) { exists a <- p.answers :: a.ord == ord }

  /** Nothing is stored or answered that was not asked, no request is answered twice, and the camera
      sees 200 exactly if the backend said so. */
  predicate Core(p: Pend) {
    && (forall sn <- p.store ::
          var q := p.store[sn];
          Serial(q) == sn && q.ord < p.issued && Asked(p, q) && !AnsweredNumber(p, q.ord))
    && (forall a <- p.answers ::
          a.ord < p.issued && Asked(p, Request(a.ord, a.addr))
          && (a.code == 200 ==> a.status == 200) && (a.code != 200 ==> a.status == 401))
    && (forall i, j :: 0 <= i < j < |p.answers| ==> p.answers[i].ord != p.answers[j].ord)
    && (forall q <- p.published :: q.ord < p.issued && (p.flight.Ready? || q.ord < p.flight.q.ord))
    && (forall i, j :: 0 <= i < j < |p.published| ==> p.published[i].ord != p.published[j].ord)
    && (!p.flight.Ready? ==> p.flight.q.ord < p.issued)
  }

  lemma RespondCore(p: Pend, sn: nat, code: int)
    requires Core(p) && sn in p.store
    ensures Core(Do(p, Respond(sn, code)))
  {
    var q, n := p.store[sn], Do(p, Respond(sn, code));
    AnsweredOneMore(p, n, Answer(q.ord, q.addr, StatusFor(code), code));
    hide AnsweredNumber, StatusFor;
    assert forall other <- n.store :: n.store[other].ord != q.ord;
  }

  lemma AnsweredOneMore(p: Pend, n: Pend, a: Answer)
    requires n.answers == p.answers + [a]
    ensures forall ord :: AnsweredNumber(n, ord) <==> AnsweredNumber(p, ord) || ord == a.ord
    ensures !AnsweredNumber(p, a.ord) ==> forall i :: 0 <= i < |p.answers| ==> p.answers[i].ord != a.ord
  {
    forall ord ensures AnsweredNumber(n, ord) <==> AnsweredNumber(p, ord) || ord == a.ord {
      assert n.answers[|p.answers|] == a;
      if b :| b in p.answers && b.ord == ord {
        assert b in n.answers;
      }
    }
  }

  lemma PublishCore(p: Pend)
    requires Core(p) && p.flight.HasStored?
    ensures Core(Do(p, Publish))
  {
    var n := Do(p, Publish);
    assert forall q :: Asked(n, q) <==> Asked(p, q);
  }

  lemma DoCore(p: Pend, a: Act)
    requires Core(p)
    ensures Core(Do(p, a))
  {
    if a.Respond? && a.sn in p.store {
      RespondCore(p, a.sn, a.code);
    } else if a.Publish? && p.flight.HasStored? {
      PublishCore(p);
    }
  }

  // ---------------------------------------------------------------- nothing forgotten

  /** The response is stored or has been sent, to the right camera. */
  predicate Kept(p: Pend, q: Request) {
    (Serial(q) in p.store && p.store[Serial(q)] == q) || exists a <- p.answers :: a.ord == q.ord && a.addr == q.addr
  }

  /** Every request that was asked can still be answered or has been. */
  ghost predicate NoneForgotten(p: Pend) { forall q :: Asked(p, q) ==> Kept(p, q) }

  /** The serial about to be stored is not outstanding. */
  predicate SerialFree(p: Pend, a: Act) { a.Store? && p.flight.HasSerial? ==> Serial(p.flight.q) !in p.store }

  lemma AnswerKeeps(p: Pend, sn: nat, code: int, q: Request)
    requires Core(p) && sn in p.store
    ensures Kept(Do(p, Respond(sn, code)), q) <==> Kept(p, q)
  {
    var n := Do(p, Respond(sn, code));
    var s := p.store[sn];
    assert n.answers[|p.answers|] == Answer(s.ord, s.addr, StatusFor(code), code);
    if a :| a in p.answers && a.ord == q.ord && a.addr == q.addr {
      assert a in n.answers;
    }
  }

  /** A serial that is still outstanding keeps the new response out of the store. */
  lemma StoreKeeps(p: Pend, q: Request)
    requires Core(p) && p.flight.HasSerial?
    ensures var n := Do(p, Store);
            (q != p.flight.q && Asked(p, q) ==> (Kept(n, q) <==> Kept(p, q)))
            && (q == p.flight.q ==> !Asked(p, q) && (Kept(n, q) <==> SerialFree(p, Store)))
  {
  }

  lemma DoForgets(p: Pend, a: Act)
    requires Core(p)
    ensures NoneForgotten(Do(p, a)) <==> NoneForgotten(p) && SerialFree(p, a)
  {
    var n := Do(p, a);
    if a.Store? && p.flight.HasSerial? {
      forall q ensures Asked(n, q) ==> (Kept(n, q) <==> if q == p.flight.q then SerialFree(p, a) else Kept(p, q)) {
        StoreKeeps(p, q);
      }
      assert Asked(n, p.flight.q);
      forall q ensures Asked(p, q) ==> Asked(n, q) && q != p.flight.q {
        StoreKeeps(p, q);
      }
    } else {
      forall q ensures (Asked(n, q) <==> Asked(p, q)) && (Kept(n, q) <==> Kept(p, q)) {
        if a.Respond? && a.sn in p.store {
          AnswerKeeps(p, a.sn, a.code, q);
        }
      }
    }
  }

  /** No serial comes round again while a request that has it is outstanding. */
  predicate SerialsFree(p: Pend, acts: seq<Act>)
    decreases acts
  {
    acts == [] || (SerialFree(p, acts[0]) && SerialsFree(Do(p, acts[0]), acts[1..]))
  }

  /** Over every run and interleaving: nothing is answered unasked, twice, to another camera or with
      another verdict; and a request is never forgotten if and only if serials do not come round. */
  lemma {:induction false} RunAnswers(p: Pend, acts: seq<Act>)
    requires Core(p) && NoneForgotten(p)
    ensures Core(Run(p, acts))
    ensures NoneForgotten(Run(p, acts)) <==> SerialsFree(p, acts)
    decreases acts
  {
    RunForgets(p, acts);
  }

  lemma {:induction false} RunForgets(p: Pend, acts: seq<Act>)
    requires Core(p)
    ensures Core(Run(p, acts))
    ensures NoneForgotten(Run(p, acts)) <==> NoneForgotten(p) && SerialsFree(p, acts)
    decreases acts
  {
    hide Do, Core, NoneForgotten, SerialFree;
    if acts == [] {
    } else {
      DoCore(p, acts[0]);
      DoForgets(p, acts[0]);
      RunForgets(Do(p, acts[0]), acts[1..]);
    }
  }

  lemma StartCore(issued: nat)
    ensures Core(Start(issued)) && NoneForgotten(Start(issued))
  {
  }

  /** So from the start of the program; in particular the camera sees 200 for code 200, and 401 for any
      other. */
  lemma AnswersFromStart(issued: nat, acts: seq<Act>)
    ensures Core(Run(Start(issued), acts))
    ensures forall a <- Run(Start(issued), acts).answers :: a.status == if a.code == 200 then 200 else 401
    ensures NoneForgotten(Run(Start(issued), acts)) <==> SerialsFree(Start(issued), acts)
  {
    StartCore(issued);
    CoreStatus(Run(Start(issued), acts));
    hide *;
    RunAnswers(Start(issued), acts);
  }

  lemma CoreStatus(p: Pend)
    ensures Core(p) ==> forall a <- p.answers :: a.status == if a.code == 200 then 200 else 401
  {
  }

  // ---------------------------------------------------------------- what answers go back to

  /** Some act before position `end` drew a serial for this camera. */
  predicate DrawnFor(acts: seq<Act>, addr: string, end: nat) { exists i :: 0 <= i < end <= |acts| && acts[i] == Draw(addr) }

  /** An answer goes to a camera whose registration drew a serial, once the backend's answer to that
      serial has come, and says what that answer says. */
  predicate AnswerTraced(acts: seq<Act>, a: Answer) {
    exists j :: 0 <= j < |acts| && acts[j] == Respond(a.ord % 0xffff_ffff, a.code) && DrawnFor(acts, a.addr, j)
                && a.status == if a.code == 200 then 200 else 401
  }

  ghost predicate Traced(acts: seq<Act>, p: Pend) {
    && (forall sn <- p.store :: Serial(p.store[sn]) == sn && DrawnFor(acts, p.store[sn].addr, |acts|))
    && (!p.flight.Ready? ==> DrawnFor(acts, p.flight.q.addr, |acts|))
    && (forall q <- p.published :: DrawnFor(acts, q.addr, |acts|))
    && (forall a <- p.answers :: AnswerTraced(acts, a))
  }

  lemma DrawnForMore(acts: seq<Act>, addr: string, end: nat, a: Act)
    requires DrawnFor(acts, addr, end)
    ensures DrawnFor(acts + [a], addr, end) && DrawnFor(acts + [a], addr, |acts| + 1)
  {
    var i :| 0 <= i < end <= |acts| && acts[i] == Draw(addr);
    assert (acts + [a])[i] == Draw(addr);
  }

  lemma TracedMore(acts: seq<Act>, a: Answer, more: Act)
    requires AnswerTraced(acts, a)
    ensures AnswerTraced(acts + [more], a)
  {
    var j :| 0 <= j < |acts| && acts[j] == Respond(a.ord % 0xffff_ffff, a.code) && DrawnFor(acts, a.addr, j);
    DrawnForMore(acts, a.addr, j, more);
    assert (acts + [more])[j] == acts[j];
  }

  lemma TracedKept(acts: seq<Act>, p: Pend, more: Act)
    requires Traced(acts, p)
    ensures Traced(acts + [more], p)
  {
    hide DrawnFor, AnswerTraced, Serial;
    forall sn <- p.store ensures DrawnFor(acts + [more], p.store[sn].addr, |acts| + 1) {
      DrawnForMore(acts, p.store[sn].addr, |acts|, more);
    }
    if !p.flight.Ready? {
      DrawnForMore(acts, p.flight.q.addr, |acts|, more);
    }
    forall q <- p.published ensures DrawnFor(acts + [more], q.addr, |acts| + 1) {
      DrawnForMore(acts, q.addr, |acts|, more);
    }
    forall a <- p.answers ensures AnswerTraced(acts + [more], a) {
      TracedMore(acts, a, more);
    }
  }

  lemma DoTraced(acts: seq<Act>, p: Pend, a: Act)
    requires Traced(acts, p)
    ensures Traced(acts + [a], Do(p, a))
  {
    var more := acts + [a];
    TracedKept(acts, p, a);
    if a.Draw? {
      assert more[|acts|] == a && DrawnFor(more, a.addr, |more|);
    } else if a.Respond? && a.sn in p.store {
      var q := p.store[a.sn];
      DrawnForMore(acts, q.addr, |acts|, a);
      assert more[|acts|] == a;
      assert AnswerTraced(more, Answer(q.ord, q.addr, StatusFor(a.code), a.code));
    }
  }

  lemma {:induction false} RunSnoc(p: Pend, acts: seq<Act>, a: Act)
    ensures Run(p, acts + [a]) == Do(Run(p, acts), a)
    decreases |acts|
  {
    hide Do;
    if acts == [] {
      assert acts + [a] == [a] && [a][1..] == [];
    } else {
      assert (acts + [a])[0] == acts[0] && (acts + [a])[1..] == acts[1..] + [a];
      RunSnoc(Do(p, acts[0]), acts[1..], a);
    }
  }

  /** Over every run from the start, every answer sent traces back to a registration of that camera and to
      the backend's answer to its serial. */
  lemma {:induction false} AnswersTraced(issued: nat, acts: seq<Act>)
    ensures Traced(acts, Run(Start(issued), acts))
    ensures forall a <- Run(Start(issued), acts).answers :: AnswerTraced(acts, a)
    decreases |acts|
  {
    hide Do, DrawnFor, AnswerTraced;
    if acts == [] {
    } else {
      var front, last := acts[..|acts| - 1], acts[|acts| - 1];
      assert acts == front + [last];
      AnswersTraced(issued, front);
      RunSnoc(Start(issued), front, last);
      DoTraced(front, Run(Start(issued), front), last);
    }
  }

  /** Every outstanding request drew its serial fewer than 2^32 - 1 draws ago. */
  predicate Recent(p: Pend) { forall sn <- p.store :: p.issued - p.store[sn].ord <= 0xffff_ffff }

  /** That is enough for a serial just drawn to be free. */
  lemma RecentIsFree(p: Pend)
    requires Core(p) && p.flight.HasSerial? && Recent(p)
    ensures SerialFree(p, Store)
  {
    var q := p.flight.q;
    if Serial(q) in p.store {
      var s := p.store[Serial(q)];
      SerialsDistinct(s.ord, q.ord);
      SerialsDistinct(q.ord, s.ord);
    }
  }

  /** An answer to a serial nobody waits for, or a second answer to one, changes nothing. */
  lemma SecondAnswer(p: Pend, sn: nat, code: int, again: int)
    requires Core(p)
    ensures var n := Do(p, Respond(sn, code)); Do(n, Respond(sn, again)) == n
    ensures sn in p.store ==>
              var q := p.store[sn];
              Do(p, Respond(sn, code)).answers
                == p.answers + [Answer(q.ord, q.addr, if code == 200 then 200 else 401, code)]
              && Asked(p, q) && !AnsweredNumber(p, q.ord)
  {
  }
}
