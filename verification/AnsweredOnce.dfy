/** Where a request has been answered, the notices that spread from there never cause another answer. Frames are
    followed from receipt to the frames that the receipt puts in flight, through loss, duplication and any order. */
module AnsweredOnce {
  import opened Basics
  import opened Frames
  import opened OdrModel
  import opened Network
  import opened LoopFreedom
  import opened HandlerLaws

  /** Which of the frames in flight descend from those marked before the step: what is put in flight on receipt of
      a marked frame, and a duplicate of one. */
  function MarksAfterStep(top: Topology, net: Net, l: Label, marks: seq<bool>): (marks': seq<bool>)
    requires Enabled(net, l) && |marks| == |net.flight|
    ensures |marks'| == |Next(top, net, l).flight|
  {
    var left :=
      match l
      case Receive(i, _) => Without(marks, i)
      case Lose(i) => Without(marks, i)
      case Duplicate(i) => marks + [marks[i]]
      case Peer(_, _, _) => marks;
    match Acting(net, l)
    case None => left
    case Some((who, o)) => left + seq(|Transmit(top, who, o.sends)|, _ => l.Receive? && marks[l.i])
  }

  /** Only notices are marked. */
  predicate NoticesOnly(net: Net, marks: seq<bool>) {
    |marks| == |net.flight| && forall i :: 0 <= i < |marks| && marks[i] ==> net.flight[i].frame.ftype == ASENT
  }

  /** A step that receives a marked frame sends no reply and no request, hands nothing to a process, and parks and
      releases nothing. */
  predicate Harmless(net: Net, l: Label, marks: seq<bool>)
    requires Enabled(net, l) && |marks| == |net.flight|
  {
    l.Receive? && marks[l.i] && Acting(net, l).Some? ==>
      var (who, o) := Acting(net, l).value;
      && (forall s :: s in o.sends ==> s.frame.ftype != RREP && s.frame.ftype != RREQ)
      && o.peers == [] && o.node.pending == net.nodes[who].pending
  }

  /** So does every step of a run, with the marks handed on. */
  predicate HarmlessRun(top: Topology, net: Net, marks: seq<bool>, run: seq<Label>)
    requires |marks| == |net.flight|
    decreases |run|
  {
    run == [] ||
    if Enabled(net, run[0]) then
      && Harmless(net, run[0], marks)
      && HarmlessRun(top, Next(top, net, run[0]), MarksAfterStep(top, net, run[0], marks), run[1..])
    else HarmlessRun(top, net, marks, run[1..])
  }

  lemma StepKeepsNotices(top: Topology, net: Net, l: Label, marks: seq<bool>)
    requires Enabled(net, l) && NoticesOnly(net, marks)
    ensures Harmless(net, l, marks) && NoticesOnly(Next(top, net, l), MarksAfterStep(top, net, l, marks))
  {
    var a := Acting(net, l);
    if a.Some? && l.Receive? && marks[l.i] {
      var (who, o) := a.value;
      var d := net.flight[l.i];
      NoticeCausesNotices(net.nodes[who], d.frame, d.index, d.mac, l.t);
      forall e | e in Transmit(top, who, o.sends)
        ensures e.frame.ftype == ASENT
      {
        var s, p, q := TransmitSound(top, who, o.sends, e);
      }
    }
  }

  /** Whatever happens, nothing that descends from a notice causes a reply. */
  lemma {:induction false} NoticesStayNotices(top: Topology, net: Net, marks: seq<bool>, run: seq<Label>)
    requires NoticesOnly(net, marks)
    ensures HarmlessRun(top, net, marks, run)
    decreases |run|
  {
    if run != [] {
      if Enabled(net, run[0]) {
        StepKeepsNotices(top, net, run[0], marks);
        NoticesStayNotices(top, Next(top, net, run[0]), MarksAfterStep(top, net, run[0], marks), run[1..]);
      } else {
        NoticesStayNotices(top, net, marks, run[1..]);
      }
    }
  }

  /** In this step a node answers a request, for itself or for another node. */
  predicate Answers(net: Net, l: Label)
    requires Enabled(net, l)
  {
    && l.Receive? && net.flight[l.i].frame.ftype == RREQ
    && Acting(net, l).Some? && exists s :: s in Acting(net, l).value.1.sends && s.frame.ftype == RREP
  }

  /** The frames that a step puts in flight, other than replies. */
  function SpreadBy(top: Topology, net: Net, l: Label): (marks: seq<bool>)
    requires Enabled(net, l)
    ensures |marks| == |Next(top, net, l).flight|
  {
    var flight := Next(top, net, l).flight;
    seq(|flight|, i requires 0 <= i < |flight| => i >= |Remaining(net, l)| && flight[i].frame.ftype != RREP)
  }

  /** A copy of a request that a node answers gets no second answer: in every run from there on, nothing
      that descends from what the node passed on causes a reply or a request. */
  lemma AnsweredOnce(top: Topology, net: Net, l: Label, run: seq<Label>)
    requires Enabled(net, l) && Answers(net, l)
    ensures HarmlessRun(top, Next(top, net, l), SpreadBy(top, net, l), run)
  {
    var (who, o) := Acting(net, l).value;
    var d := net.flight[l.i];
    var n := net.nodes[who];
    AnswerEndsSearch(n, d.frame, d.index, d.mac, l.t);
    AnswerTypes(n, d.frame, d.index, d.mac, l.t);
    forall e | e in Transmit(top, who, o.sends)
      ensures e.frame.ftype == RREP || e.frame.ftype == ASENT
    {
      var s, p, q := TransmitSound(top, who, o.sends, e);
    }
    NoticesStayNotices(top, Next(top, net, l), SpreadBy(top, net, l), run);
  }

  /** On receipt of a request only replies, requests and notices are sent. */
  lemma AnswerTypes(n: Node, f: Frame, ifno: int, mac: Mac, t: Clock)
    requires f.ftype == RREQ
    ensures forall s :: s in HandleEthernet(n, f, ifno, mac, t).sends ==>
              s.frame.ftype == RREP || s.frame.ftype == RREQ || s.frame.ftype == ASENT
  {
    FloodSends(n.ifs, ifno, Onward(f, ASENT));
    FloodSends(n.ifs, ifno, Onward(f, RREQ));
  }
}
