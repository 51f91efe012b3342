/** Answering an SDP offer: attributes are removed in place, and a direction is answered. */
module SdpAnswer {
  import opened Wrappers

  datatype Attr = Attr(name: string, value: string)

  datatype Media = Media(desc: string, attrs: seq<Attr>)
  datatype Session = Session(name: string, attrs: seq<Attr>, media: seq<Media>)

  const DIRS: seq<string> := ["sendrecv", "sendonly", "recvonly", "inactive"]
  const ICE: seq<string> := ["ice-pwd", "ice-ufrag", "candidate"]

  // ---------------------------------------------------------------- removing attributes

  /** The attributes not named, in order. */
  function Keep(attrs: seq<Attr>, names: seq<string>): (kept: seq<Attr>)
    ensures |kept| <= |attrs|
  {
    if attrs == [] then []
    else Keep(attrs[..|attrs| - 1], names) + if attrs[|attrs| - 1].name in names then [] else [attrs[|attrs| - 1]]
  }

  /** The first attribute named. */
  function FirstOf(attrs: seq<Attr>, names: seq<string>): Option<Attr> {
    if attrs == [] then None
    else
      var front, last := FirstOf(attrs[..|attrs| - 1], names), attrs[|attrs| - 1];
      if front.Some? then front else if last.name in names then Some(last) else None
  }

  lemma {:induction false} KeepMembers(attrs: seq<Attr>, names: seq<string>)
    ensures forall a :: a in Keep(attrs, names) <==> a in attrs && a.name !in names
  {
    if attrs == [] {
    } else {
      KeepMembers(attrs[..|attrs| - 1], names);
      assert attrs == attrs[..|attrs| - 1] + [attrs[|attrs| - 1]];
    }
  }

  lemma {:induction false} FirstOfFinds(attrs: seq<Attr>, names: seq<string>)
    ensures FirstOf(attrs, names).None? <==> forall a <- attrs :: a.name !in names
    ensures FirstOf(attrs, names).Some? ==>
              FirstOf(attrs, names).value in attrs && FirstOf(attrs, names).value.name in names
    ensures FirstOf(attrs, names).None? <==> |Keep(attrs, names)| == |attrs|
  {
    if attrs == [] {
    } else {
      FirstOfFinds(attrs[..|attrs| - 1], names);
      assert attrs == attrs[..|attrs| - 1] + [attrs[|attrs| - 1]];
    }
  }

  method ArrayErase(attr: array<Attr>, cnt: nat, pos: nat)
    requires pos < cnt <= attr.Length
    modifies attr
    ensures attr[..cnt - 1] == old(attr[..cnt])[..pos] + old(attr[..cnt])[pos + 1..]
  {
    for k := pos to cnt - 1
      invariant attr[..k] == old(attr[..pos]) + old(attr[pos + 1..k + 1])
      invariant attr[k..] == old(attr[k..])
    {
      attr[k] := attr[k + 1];
    }
  }

  method NameIn(name: string, names: seq<string>) returns (found: bool)
    ensures found <==> name in names
  {
    for j := 0 to |names|
      invariant name !in names[..j]
    {
      if name == names[j] {
        return true;
      }
    }
    return false;
  }

  lemma OneMore(attrs: seq<Attr>, k: nat, names: seq<string>)
    requires k < |attrs|
    ensures var before := Keep(attrs[..k], names);
            Keep(attrs[..k + 1], names) == if attrs[k].name in names then before else before + [attrs[k]]
    ensures var before := FirstOf(attrs[..k], names);
            FirstOf(attrs[..k + 1], names)
            == if before.None? && attrs[k].name in names then Some(attrs[k]) else before
  {
    assert attrs[..k + 1][..k] == attrs[..k];
  }

  /** Midway: of what `was` there, `seen` entries have been looked at and those kept are in front. */
  ghost predicate Walk(now: seq<Attr>, was: seq<Attr>, seen: nat, i: nat, found: Option<Attr>, names: seq<string>) {
    && seen <= |was| && i == |Keep(was[..seen], names)|
    && now == Keep(was[..seen], names) + was[seen..] && found == FirstOf(was[..seen], names)
  }

  lemma WalkStarts(was: seq<Attr>, names: seq<string>)
    ensures Walk(was, was, 0, 0, None, names)
  {
  }

  lemma WalkGoesOn(now: seq<Attr>, was: seq<Attr>, seen: nat, i: nat, found: Option<Attr>, names: seq<string>)
    requires Walk(now, was, seen, i, found, names) && i < |now|
    ensures if now[i].name in names
            then Walk(now[..i] + now[i + 1..], was, seen + 1, i, if found.Some? then found else Some(now[i]), names)
            else Walk(now, was, seen + 1, i + 1, found, names)
  {
    OneMore(was, seen, names);
    SplitBehind(Keep(was[..seen], names), was[seen..]);
    assert was[seen..][0] == was[seen] && was[seen..][1..] == was[seen + 1..];
    hide Keep, FirstOf;
  }

  lemma WalkPasses(now: seq<Attr>, was: seq<Attr>, seen: nat, i: nat, found: Option<Attr>, names: seq<string>)
    requires Walk(now, was, seen, i, found, names) && i < |now| && now[i].name !in names
    ensures Walk(now, was, seen + 1, i + 1, found, names)
  {
    hide Walk;
    WalkGoesOn(now, was, seen, i, found, names);
  }

  lemma SplitBehind(kept: seq<Attr>, rest: seq<Attr>)
    requires rest != []
    ensures var now := kept + rest;
            && now[..|kept|] == kept && now[|kept|] == rest[0] && now[|kept| + 1..] == rest[1..]
            && now == kept + [rest[0]] + rest[1..]
  {
    var now := kept + rest;
    assert rest == [rest[0]] + rest[1..];
    assert forall k :: 0 <= k < |kept| ==> now[k] == kept[k];
    assert forall k :: |kept| < k < |now| ==> now[k] == rest[k - |kept|];
  }

  lemma WalkEnds(now: seq<Attr>, was: seq<Attr>, seen: nat, i: nat, found: Option<Attr>, names: seq<string>)
    requires Walk(now, was, seen, i, found, names) && i >= |now|
    ensures now == Keep(was, names) && found == FirstOf(was, names)
  {
    assert was[..seen] == was;
  }

  /** Deletes one entry that has been looked at. */
  method EraseNamed(attr: array<Attr>, left: nat, i: nat, ghost was: seq<Attr>, ghost seen: nat, found: Option<Attr>,
                    ghost names: seq<string>)
    returns (first: Option<Attr>)
    requires left <= attr.Length && Walk(attr[..left], was, seen, i, found, names)
    requires i < left && attr[i].name in names
    modifies attr
    ensures Walk(attr[..left - 1], was, seen + 1, i, first, names)
  {
    hide Walk;
    ghost var now := attr[..left];
    assert now[i] == attr[i];
    WalkGoesOn(now, was, seen, i, found, names);
    first := if found.Some? then found else Some(attr[i]);
    ArrayErase(attr, left, i);
  }

  /** Looks at one entry: a named one is deleted, and the index goes back to be where it was. */
  method Visit(attr: array<Attr>, cnt: nat, at: nat, ghost was: seq<Attr>, ghost seen: nat, had: Option<Attr>,
               names: seq<string>)
    returns (left: nat, i: nat, found: Option<Attr>)
    requires at < cnt <= attr.Length && Walk(attr[..cnt], was, seen, at, had, names)
    modifies attr
    ensures left <= cnt && left - i == cnt - at - 1
    ensures Walk(attr[..left], was, seen + 1, i, found, names)
  {
    hide Walk, Keep, FirstOf;
    ghost var now := attr[..cnt];
    assert now[at] == attr[at];
    left, found := cnt, had;
    var k: int := at;
    var named := NameIn(attr[at].name, names);
    if named {
      found := EraseNamed(attr, cnt, at, was, seen, had, names);
      left := left - 1;
      k := k - 1;
    } else {
      WalkPasses(now, was, seen, at, had, names);
    }
    i := k + 1;
  }

  /** Deletes the named attributes from the first `cnt` entries while walking over them: the index
      goes back by one at every deletion. */
  method RemoveSdpAttrs(attr: array<Attr>, cnt: nat, names: seq<string>) returns (left: nat, found: Option<Attr>)
    requires cnt <= attr.Length
    modifies attr
    ensures left <= cnt && attr[..left] == Keep(old(attr[..cnt]), names)
    ensures found == FirstOf(old(attr[..cnt]), names)
  {
    hide Walk, Keep, FirstOf;
    left, found := cnt, None;
    var i := 0;
    ghost var was, seen := attr[..cnt], 0;
    WalkStarts(was, names);
    while i < left
      invariant 0 <= i && left <= cnt && 0 <= seen
      invariant Walk(attr[..left], was, seen, i, found, names)
      decreases left - i
    {
      left, i, found := Visit(attr, left, i, was, seen, found, names);
      seen := seen + 1;
    }
    WalkEnds(attr[..left], was, seen, i, found, names);
  }

  // ---------------------------------------------------------------- the answer

  /** The direction answered to an offered one; empty where nothing is said and sendrecv stands. */
  function OurDir(offered: string): string {
    if offered == "sendonly" then "recvonly"
    else if offered == "inactive" then "inactive"
    else if offered == "recvonly" then "inactive"
    else ""
  }

  /** The direction that counts for a media: its own first one, else the session's. */
  function OfferedDir(attrs: seq<Attr>, session: Option<Attr>): Option<Attr> {
    if FirstOf(attrs, DIRS).Some? then FirstOf(attrs, DIRS) else session
  }

  function Directed(attrs: seq<Attr>, offered: Option<Attr>): seq<Attr> {
    if offered.Some? && OurDir(offered.value.name) != "" then attrs + [Attr(OurDir(offered.value.name), "")] else attrs
  }

  function AnswerMedia(m: Media, session: Option<Attr>): Media {
    m.(attrs := Keep(Directed(Keep(m.attrs, DIRS), OfferedDir(m.attrs, session)), ICE))
  }

  function Answer(offer: Session): Session {
    Session("sipapp", Keep(offer.attrs, DIRS),
            seq(|offer.media|, i requires 0 <= i < |offer.media| => AnswerMedia(offer.media[i], FirstOf(offer.attrs, DIRS))))
  }

  /** The attribute array of `capacity` slots has room for the answer while it is built. */
  predicate Roomy(m: Media, session: Option<Attr>, capacity: nat) {
    |m.attrs| <= capacity && |Directed(Keep(m.attrs, DIRS), OfferedDir(m.attrs, session))| <= capacity
  }

  /** There is room unless the array is full, the direction comes from the session and has to be
      answered. */
  lemma RoomyExactly(m: Media, session: Option<Attr>, capacity: nat)
    requires |m.attrs| <= capacity
    ensures Roomy(m, session, capacity)
            <==> !(|m.attrs| == capacity && FirstOf(m.attrs, DIRS).None?
                   && session.Some? && OurDir(session.value.name) != "")
  {
    FirstOfFinds(m.attrs, DIRS);
  }

  class SdpMedia {
    const desc: string
    const attr: array<Attr>
    var attrCount: nat

    ghost predicate Valid()
      reads this
    {
      attrCount <= attr.Length
    }

    ghost function View(): Media
      requires Valid()
      reads this, attr
    {
      Media(desc, attr[..attrCount])
    }

    /** A copy of an offered media. */
    constructor (m: Media, capacity: nat)
      requires |m.attrs| <= capacity
      ensures Valid() && View() == m && fresh(attr) && attr.Length == capacity
    {
      desc, attrCount := m.desc, |m.attrs|;
      attr := new Attr[capacity](i => if 0 <= i < |m.attrs| then m.attrs[i] else Attr("", ""));
      new;
      assert attr[..attrCount] == m.attrs;
    }

    /** Replaces the offered direction by the answered one and drops what belongs to ICE. */
    method AnswerInPlace(session: Option<Attr>)
      requires Valid() && Roomy(View(), session, attr.Length)
      modifies this, attr
      ensures Valid() && View() == AnswerMedia(old(View()), session)
    {
      hide Keep, FirstOf, OurDir;
      var own: Option<Attr>;
      attrCount, own := RemoveSdpAttrs(attr, attrCount, DIRS);
      var offered := if own.Some? then own else session;
      if offered.Some? {
        var ours := OurDir(offered.value.name);
        if ours != "" {
          attr[attrCount] := Attr(ours, "");
          attrCount := attrCount + 1;
        }
      }
      assert attr[..attrCount] == Directed(Keep(old(View()).attrs, DIRS), offered);
      attrCount, own := RemoveSdpAttrs(attr, attrCount, ICE);
    }
  }

  method AnswerOne(m: Media, session: Option<Attr>, capacity: nat) returns (r: SdpMedia)
    requires Roomy(m, session, capacity)
    ensures fresh(r) && fresh(r.attr) && r.Valid() && r.View() == AnswerMedia(m, session)
  {
    r := new SdpMedia(m, capacity);
    r.AnswerInPlace(session);
  }

  method AnswerAll(offered: seq<Media>, session: Option<Attr>, capacity: nat) returns (media: seq<SdpMedia>)
    requires forall m <- offered :: Roomy(m, session, capacity)
    ensures |media| == |offered|
    ensures forall i :: 0 <= i < |media| ==> media[i].Valid() && media[i].View() == AnswerMedia(offered[i], session)
  {
    hide Roomy, AnswerMedia;
    media := [];
    for i := 0 to |offered|
      invariant |media| == i
      invariant forall j :: 0 <= j < i ==> media[j].Valid() && media[j].View() == AnswerMedia(offered[j], session)
    {
      var m := AnswerOne(offered[i], session, capacity);
      media := media + [m];
    }
  }

  /** Answers an offer media by media on a copy of it. */
  method CreateAnswer(offer: Session, capacity: nat)
    returns (name: string, attr: array<Attr>, attrCount: nat, media: seq<SdpMedia>)
    requires |offer.attrs| <= capacity
    requires forall m <- offer.media :: Roomy(m, FirstOf(offer.attrs, DIRS), capacity)
    ensures name == Answer(offer).name
    ensures attrCount <= attr.Length && attr[..attrCount] == Answer(offer).attrs
    ensures |media| == |offer.media|
    ensures forall i :: 0 <= i < |media| ==> media[i].Valid() && media[i].View() == Answer(offer).media[i]
  {
    hide Keep, FirstOf, Roomy, AnswerMedia;
    name := "sipapp";
    attr := new Attr[capacity](i => if 0 <= i < |offer.attrs| then offer.attrs[i] else Attr("", ""));
    assert attr[..|offer.attrs|] == offer.attrs;
    var session: Option<Attr>;
    attrCount, session := RemoveSdpAttrs(attr, |offer.attrs|, DIRS);
    media := AnswerAll(offer.media, session, capacity);
  }

  // ---------------------------------------------------------------- legality

  datatype Direction = SendRecv | SendOnly | RecvOnly | Inactive

  function DirectionOf(name: string): Direction {
    if name == "sendonly" then SendOnly
    else if name == "recvonly" then RecvOnly
    else if name == "inactive" then Inactive
    else SendRecv
  }

  /** Section 6 of RFC 4566: a media without a direction has the session's, else it is sendrecv. */
  function Effective(session: seq<Attr>, media: seq<Attr>): Direction {
    var dir := OfferedDir(media, FirstOf(session, DIRS));
    if dir.Some? then DirectionOf(dir.value.name) else SendRecv
  }

  /** Section 6.1 of RFC 3264: what may be answered to an offered direction. */
  predicate Allowed(offer: Direction, answer: Direction) {
    match offer
    case SendRecv => true
    case SendOnly => answer.RecvOnly? || answer.Inactive?
    case RecvOnly => answer.SendOnly? || answer.Inactive?
    case Inactive => answer.Inactive?
  }

  /** What this recorder says to each direction: it wants to receive, and not to send. */
  function Reply(offer: Direction): Direction {
    match offer
    case SendRecv => SendRecv
    case SendOnly => RecvOnly
    case RecvOnly => Inactive
    case Inactive => Inactive
  }

  lemma {:induction false} KeepConcat(a: seq<Attr>, b: seq<Attr>, names: seq<string>)
    ensures Keep(a + b, names) == Keep(a, names) + Keep(b, names)
  {
    if b == [] {
      assert a + b == a;
    } else {
      assert (a + b)[..|a + b| - 1] == a + b[..|b| - 1];
      KeepConcat(a, b[..|b| - 1], names);
    }
  }

  lemma {:induction false} KeepTwice(attrs: seq<Attr>, first: seq<string>, second: seq<string>)
    ensures Keep(Keep(attrs, first), second) == Keep(attrs, first + second)
  {
    if attrs == [] {
    } else {
      var front, last := attrs[..|attrs| - 1], attrs[|attrs| - 1];
      KeepTwice(front, first, second);
      KeepConcat(Keep(front, first), if last.name in first then [] else [last], second);
      assert [last][..0] == [];
    }
  }

  lemma KeepsOne(attr: Attr, names: seq<string>)
    ensures Keep([attr], names) == if attr.name in names then [] else [attr]
    ensures FirstOf([attr], names) == if attr.name in names then Some(attr) else None
  {
    assert [attr][..0] == [];
  }

  lemma {:induction false} FirstOfConcat(a: seq<Attr>, b: seq<Attr>, names: seq<string>)
    ensures FirstOf(a + b, names) == if FirstOf(a, names).Some? then FirstOf(a, names) else FirstOf(b, names)
  {
    if b == [] {
      assert a + b == a;
    } else {
      assert (a + b)[..|a + b| - 1] == a + b[..|b| - 1];
      FirstOfConcat(a, b[..|b| - 1], names);
    }
  }

  /** What is left of one media: the offer's other attributes in order, then the answered direction. */
  lemma MediaShape(m: Media, session: Option<Attr>)
    ensures var dir := OfferedDir(m.attrs, session);
            AnswerMedia(m, session).attrs
            == if dir.Some? && OurDir(dir.value.name) != ""
               then Keep(m.attrs, DIRS + ICE) + [Attr(OurDir(dir.value.name), "")] else Keep(m.attrs, DIRS + ICE)
  {
    var dir := OfferedDir(m.attrs, session);
    var kept := Keep(m.attrs, DIRS);
    KeepTwice(m.attrs, DIRS, ICE);
    if dir.Some? && OurDir(dir.value.name) != "" {
      var ours := Attr(OurDir(dir.value.name), "");
      KeepConcat(kept, [ours], ICE);
      NotIce(dir.value.name);
      KeepsOne(ours, ICE);
    }
  }

  lemma NotIce(offered: string)
    ensures OurDir(offered) !in ICE && (OurDir(offered) != "" ==> OurDir(offered) in DIRS)
  {
    assert |OurDir(offered)| == 8 || |OurDir(offered)| == 0;
    assert |ICE[0]| == 7 && |ICE[1]| == 9 && |ICE[2]| == 9;
    assert DIRS[2] == "recvonly" && DIRS[3] == "inactive";
  }

  lemma NoDirectionLeft(attrs: seq<Attr>)
    ensures FirstOf(Keep(attrs, DIRS + ICE), DIRS) == None && Keep(Keep(attrs, DIRS + ICE), DIRS) == Keep(attrs, DIRS + ICE)
    ensures FirstOf(Keep(attrs, DIRS + ICE), ICE) == None
  {
    var k := Keep(attrs, DIRS + ICE);
    KeepMembers(attrs, DIRS + ICE);
    FirstOfFinds(k, DIRS);
    FirstOfFinds(k, ICE);
    KeepSame(k, DIRS);
  }

  lemma {:induction false} KeepSame(attrs: seq<Attr>, names: seq<string>)
    requires forall a <- attrs :: a.name !in names
    ensures Keep(attrs, names) == attrs
  {
    if attrs == [] {
    } else {
      KeepSame(attrs[..|attrs| - 1], names);
    }
  }

  /** The answered direction may be answered to the offered one. */
  lemma DirectionLegal(offered: string)
    requires offered in DIRS
    ensures var ours := if OurDir(offered) != "" then DirectionOf(OurDir(offered)) else SendRecv;
            ours == Reply(DirectionOf(offered)) && Allowed(DirectionOf(offered), ours)
  {
    assert DIRS[0] == "sendrecv" && DIRS[1] == "sendonly" && DIRS[2] == "recvonly" && DIRS[3] == "inactive";
  }

  /** Attributes without direction or ICE, and at most one direction behind them. */
  lemma ShapeOf(rest: seq<Attr>, ours: string)
    requires FirstOf(rest, DIRS) == None && FirstOf(rest, ICE) == None && Keep(rest, DIRS) == rest
    requires ours in DIRS && ours !in ICE
    ensures var a := rest + [Attr(ours, "")];
            FirstOf(a, DIRS) == Some(Attr(ours, "")) && FirstOf(a, ICE) == None && Keep(a, DIRS) == rest
  {
    var attr := Attr(ours, "");
    KeepsOne(attr, DIRS);
    KeepsOne(attr, ICE);
    KeepConcat(rest, [attr], DIRS);
    FirstOfConcat(rest, [attr], DIRS);
    FirstOfConcat(rest, [attr], ICE);
  }

  lemma OfferedIsDirection(session: seq<Attr>, media: seq<Attr>)
    ensures var dir := OfferedDir(media, FirstOf(session, DIRS)); dir.Some? ==> dir.value.name in DIRS
  {
    FirstOfFinds(media, DIRS);
    FirstOfFinds(session, DIRS);
  }

  /** The answer in terms of the lists of names that are removed. */
  lemma LegalByLists(offer: Session, i: nat)
    requires i < |offer.media|
    ensures var answer := Answer(offer);
            var o, a := offer.media[i].attrs, answer.media[i].attrs;
            && |answer.media| == |offer.media|
            && FirstOf(answer.attrs, DIRS) == None
            && |a| - |Keep(a, DIRS)| <= 1
            && Allowed(Effective(offer.attrs, o), Effective(answer.attrs, a))
            && Effective(answer.attrs, a) == Reply(Effective(offer.attrs, o))
            && FirstOf(a, ICE) == None
            && Keep(a, DIRS) == Keep(o, DIRS + ICE)
  {
    hide Keep, FirstOf, OurDir, DirectionOf, Allowed, AnswerMedia, Reply;
    var session, m := FirstOf(offer.attrs, DIRS), offer.media[i];
    var dir := OfferedDir(m.attrs, session);
    var rest := Keep(m.attrs, DIRS + ICE);
    MediaShape(m, session);
    NoDirectionLeft(m.attrs);
    SessionSilent(offer.attrs);
    OfferedIsDirection(offer.attrs, m.attrs);
    if dir.Some? {
      DirectionLegal(dir.value.name);
      NotIce(dir.value.name);
      if OurDir(dir.value.name) != "" {
        ShapeOf(rest, OurDir(dir.value.name));
      }
    } else {
      SilenceLegal();
    }
  }

  lemma SilenceLegal()
    ensures Allowed(SendRecv, SendRecv) && Reply(SendRecv) == SendRecv
  {
  }

  lemma SessionSilent(attrs: seq<Attr>)
    ensures FirstOf(Keep(attrs, DIRS), DIRS) == None
  {
    KeepMembers(attrs, DIRS);
    FirstOfFinds(Keep(attrs, DIRS), DIRS);
  }

  // ---------------------------------------------------------------- legality, without those lists

  predicate IsDirection(name: string) {
    name == "sendrecv" || name == "sendonly" || name == "recvonly" || name == "inactive"
  }

  predicate IsIce(name: string) { name == "ice-pwd" || name == "ice-ufrag" || name == "candidate" }

  /** The directions among the attributes, in order. */
  function Directions(attrs: seq<Attr>): seq<string> {
    if attrs == [] then []
    else (if IsDirection(attrs[0].name) then [attrs[0].name] else []) + Directions(attrs[1..])
  }

  /** The attributes that are neither directions nor, if `ice`, belong to ICE. */
  function Others(attrs: seq<Attr>, ice: bool): seq<Attr> {
    if attrs == [] then []
    else (if IsDirection(attrs[0].name) || (ice && IsIce(attrs[0].name)) then [] else [attrs[0]]) + Others(attrs[1..], ice)
  }

  /** The direction that counts for a media: its own first one, else the session's first one, else sendrecv. */
  function InForce(session: seq<Attr>, media: seq<Attr>): string {
    if Directions(media) != [] then Directions(media)[0]
    else if Directions(session) != [] then Directions(session)[0]
    else "sendrecv"
  }

  lemma ListsAre(name: string)
    ensures name in DIRS <==> IsDirection(name)
    ensures name in ICE <==> IsIce(name)
  {
    assert DIRS[0] == "sendrecv" && DIRS[1] == "sendonly" && DIRS[2] == "recvonly" && DIRS[3] == "inactive";
    assert ICE[0] == "ice-pwd" && ICE[1] == "ice-ufrag" && ICE[2] == "candidate";
  }

  lemma {:induction false} DirectionsConcat(a: seq<Attr>, b: seq<Attr>)
    ensures Directions(a + b) == Directions(a) + Directions(b)
    decreases |a|
  {
    hide IsDirection;
    if a == [] {
      assert a + b == b;
    } else {
      assert (a + b)[0] == a[0] && (a + b)[1..] == a[1..] + b;
      DirectionsConcat(a[1..], b);
    }
  }

  lemma {:induction false} OthersConcat(a: seq<Attr>, b: seq<Attr>, ice: bool)
    ensures Others(a + b, ice) == Others(a, ice) + Others(b, ice)
    decreases |a|
  {
    hide IsDirection, IsIce;
    if a == [] {
      assert a + b == b;
    } else {
      assert (a + b)[0] == a[0] && (a + b)[1..] == a[1..] + b;
      OthersConcat(a[1..], b, ice);
    }
  }

  lemma DirectionsOfOne(attr: Attr)
    ensures Directions([attr]) == if IsDirection(attr.name) then [attr.name] else []
    ensures Others([attr], true) == if IsDirection(attr.name) || IsIce(attr.name) then [] else [attr]
    ensures Others([attr], false) == if IsDirection(attr.name) then [] else [attr]
  {
    assert [attr][1..] == [];
  }

  /** What is found by the list of directions is the first direction. */
  lemma {:induction false} FirstIsDirection(attrs: seq<Attr>)
    ensures FirstOf(attrs, DIRS).None? <==> Directions(attrs) == []
    ensures FirstOf(attrs, DIRS).Some? ==> FirstOf(attrs, DIRS).value.name == Directions(attrs)[0]
    decreases |attrs|
  {
    hide IsDirection;
    if attrs == [] {
    } else {
      var front, last := attrs[..|attrs| - 1], attrs[|attrs| - 1];
      FirstIsDirection(front);
      assert attrs == front + [last];
      DirectionsConcat(front, [last]);
      DirectionsOfOne(last);
      ListsAre(last.name);
    }
  }

  lemma {:induction false} KeepsOthers(attrs: seq<Attr>)
    ensures Keep(attrs, DIRS + ICE) == Others(attrs, true) && Keep(attrs, DIRS) == Others(attrs, false)
    decreases |attrs|
  {
    hide IsDirection, IsIce;
    if attrs == [] {
    } else {
      var front, last := attrs[..|attrs| - 1], attrs[|attrs| - 1];
      KeepsOthers(front);
      assert attrs == front + [last];
      OthersConcat(front, [last], true);
      OthersConcat(front, [last], false);
      DirectionsOfOne(last);
      ListsAre(last.name);
      assert last.name in DIRS + ICE <==> last.name in DIRS || last.name in ICE;
    }
  }

  lemma {:induction false} OthersMembers(attrs: seq<Attr>, ice: bool)
    ensures forall a <- Others(attrs, ice) :: !IsDirection(a.name) && (ice ==> !IsIce(a.name))
    decreases |attrs|
  {
    hide IsDirection, IsIce;
    if attrs == [] {
    } else {
      OthersMembers(attrs[1..], ice);
    }
  }

  lemma {:induction false} NoDirections(attrs: seq<Attr>)
    requires forall a <- attrs :: !IsDirection(a.name)
    ensures Directions(attrs) == []
    decreases |attrs|
  {
    hide IsDirection;
    if attrs == [] {
    } else {
      NoDirections(attrs[1..]);
    }
  }

  lemma {:induction false} AllOthers(attrs: seq<Attr>)
    requires forall a <- attrs :: !IsDirection(a.name) && !IsIce(a.name)
    ensures Others(attrs, true) == attrs
    decreases |attrs|
  {
    hide IsDirection, IsIce;
    if attrs == [] {
    } else {
      AllOthers(attrs[1..]);
    }
  }

  lemma OthersAre(attrs: seq<Attr>, ice: bool)
    ensures forall a <- Others(attrs, ice) :: !IsDirection(a.name) && (ice ==> !IsIce(a.name))
    ensures Directions(Others(attrs, ice)) == [] && Others(Others(attrs, true), true) == Others(attrs, true)
  {
    hide *;
    OthersMembers(attrs, ice);
    OthersMembers(attrs, true);
    NoDirections(Others(attrs, ice));
    AllOthers(Others(attrs, true));
  }

  /** The answer is legal for every offer. It has as many media, each of the same description, and the name
      "sipapp". No direction is left for the session, whose other attributes keep their order. A media has at
      most one direction, none of the three ICE attributes, and its other attributes in order. And what is then
      in force answers what was: sendrecv to sendrecv, recvonly to sendonly, inactive to recvonly or inactive,
      which section 6.1 of RFC 3264 allows. */
  lemma LegalAnswer(offer: Session, i: nat)
    requires i < |offer.media|
    ensures var answer := Answer(offer);
            && |answer.media| == |offer.media| && answer.name == "sipapp"
            && answer.media[i].desc == offer.media[i].desc
            && Directions(answer.attrs) == [] && answer.attrs == Others(offer.attrs, false)
    ensures var o, a := offer.media[i].attrs, Answer(offer).media[i].attrs;
            && |Directions(a)| <= 1 && (forall x <- a :: !IsIce(x.name)) && Others(a, true) == Others(o, true)
    ensures var offered := InForce(offer.attrs, offer.media[i].attrs);
            var said := InForce(Answer(offer).attrs, Answer(offer).media[i].attrs);
            && IsDirection(offered)
            && (offered == "sendrecv" ==> said == "sendrecv") && (offered == "sendonly" ==> said == "recvonly")
            && (offered == "recvonly" ==> said == "inactive") && (offered == "inactive" ==> said == "inactive")
  {
    hide Keep, FirstOf, Directions, Others;
    var o := offer.media[i].attrs;
    KeepsOthers(offer.attrs);
    KeepsOthers(o);
    OthersAre(offer.attrs, false);
    OthersAre(o, true);
    FirstIsDirection(offer.attrs);
    FirstIsDirection(o);
    MediaShape(offer.media[i], FirstOf(offer.attrs, DIRS));
    DirectionsMember(offer.attrs);
    DirectionsMember(o);
    SaidIn(o, offer.attrs, InForce(offer.attrs, o));
  }

  lemma {:induction false} DirectionsMember(attrs: seq<Attr>)
    ensures forall d <- Directions(attrs) :: IsDirection(d)
  {
    if attrs == [] {
    } else {
      DirectionsMember(attrs[1..]);
    }
  }

  /** What a media says once its direction has been answered. */
  lemma SaidIn(o: seq<Attr>, session: seq<Attr>, offered: string)
    requires IsDirection(offered)
    ensures var rest := Others(o, true);
            && Directions(rest) == [] && (forall x <- rest :: !IsIce(x.name)) && Others(rest, true) == rest
            && (OurDir(offered) == "" <==> offered == "sendrecv")
            && (offered == "sendonly" ==> OurDir(offered) == "recvonly")
            && (offered == "recvonly" || offered == "inactive" ==> OurDir(offered) == "inactive")
            && (OurDir(offered) != "" ==>
                var a := rest + [Attr(OurDir(offered), "")];
                Directions(a) == [OurDir(offered)] && (forall x <- a :: !IsIce(x.name)) && Others(a, true) == rest)
  {
    OthersAre(o, true);
    var rest := Others(o, true);
    var ours := Attr(OurDir(offered), "");
    DirectionsOfOne(ours);
    DirectionsConcat(rest, [ours]);
    OthersConcat(rest, [ours], true);
    hide Directions, Others;
    assert |"ice-pwd"| == 7 && |"ice-ufrag"| == 9 && |"candidate"| == 9;
    assert |"recvonly"| == 8 && |"inactive"| == 8;
    assert "recvonly"[0] != "inactive"[0] && "sendonly"[0] != "recvonly"[0] && "sendonly"[0] != "inactive"[0];
    assert "sendrecv"[4] != "sendonly"[4] && "sendrecv"[0] != "recvonly"[0] && "sendrecv"[0] != "inactive"[0];
  }
}
