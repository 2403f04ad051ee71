/** Hook files: an identity is a position, so installing may only append. */
module Hooks {
  import opened Wrappers
  import Decimal

  // ------------------------------------------------------------ a hook file

  /** A JSON member that may be missing, null, or there. */
  datatype Slot<T> = Absent | Null | There(value: T)

  /** A hook is its canonical text; a group may name a matcher and may carry no list of hooks. */
  type Hook = string
  datatype Group = Group(matcher: Option<string>, hooks: Slot<seq<Hook>>)
  type Groups = Slot<seq<Group>>

  /** `others` is every other member of the file. */
  datatype Document = Document(hooks: Slot<map<string, Groups>>, others: string)

  function ListOf<T>(slot: Slot<seq<T>>): seq<T> {
    if slot.There? then slot.value else []
  }

  function GroupsOf(document: Document, event: string): seq<Group> {
    if document.hooks.There? && event in document.hooks.value then ListOf(document.hooks.value[event]) else []
  }

  predicate IsAt(document: Document, event: string, matcher: nat, index: nat) {
    matcher < |GroupsOf(document, event)| && index < |ListOf(GroupsOf(document, event)[matcher].hooks)|
  }

  function HookAt(document: Document, event: string, matcher: nat, index: nat): Hook
    requires IsAt(document, event, matcher, index)
  {
    ListOf(GroupsOf(document, event)[matcher].hooks)[index]
  }

  // ------------------------------------------------------------ identities

  const SOURCE := "user"

  function Identity(event: string, matcher: nat, index: nat): string {
    SOURCE + ":" + event + ":" + Decimal.Numeral(matcher) + ":" + Decimal.Numeral(index)
  }

  lemma NoColon(n: nat)
    ensures ':' !in Decimal.Numeral(n)
  {
    var text := Decimal.Numeral(n);
    forall i | 0 <= i < |text| ensures text[i] != ':' {
      assert Decimal.IsDigit(text[i]);
    }
  }

  /** The last colon of a text splits it in one way. */
  lemma LastColon(a: string, x: string, b: string, y: string)
    requires ':' !in x && ':' !in y && a + ":" + x == b + ":" + y
    ensures a == b && x == y
  {
    var text := a + ":" + x;
    assert text[|a|] == ':' && text[|b|] == ':';
    assert forall i | |a| < i < |text| :: text[i] == x[i - |a| - 1] != ':';
    assert forall i | |b| < i < |text| :: text[i] == y[i - |b| - 1] != ':';
    assert |a| == |b|;
    assert a == text[..|a|] == b && x == text[|a| + 1..] == y;
  }

  /** Two hooks never share an identity, even where event names hold colons. */
  lemma IdentitiesDiffer(event: string, matcher: nat, index: nat, event': string, matcher': nat, index': nat)
    requires Identity(event, matcher, index) == Identity(event', matcher', index')
    ensures event == event' && matcher == matcher' && index == index'
  {
    var head, head' := SOURCE + ":" + event, SOURCE + ":" + event';
    NoColon(matcher);
    NoColon(matcher');
    NoColon(index);
    NoColon(index');
    hide Decimal.Numeral;
    LastColon(head + ":" + Decimal.Numeral(matcher), Decimal.Numeral(index),
              head' + ":" + Decimal.Numeral(matcher'), Decimal.Numeral(index'));
    LastColon(head, Decimal.Numeral(matcher), head', Decimal.Numeral(matcher'));
    assert head[|SOURCE| + 1..] == event && head'[|SOURCE| + 1..] == event';
    Decimal.NumeralsDiffer(matcher, matcher');
    Decimal.NumeralsDiffer(index, index');
  }

  /** Decimal digits, and nothing else. */
  function ReadNumber(text: string, before: nat): Option<nat> {
    if text == "" then Some(before)
    else if '0' <= text[0] <= '9' then ReadNumber(text[1..], before * 10 + (text[0] as int - '0' as int))
    else None
  }

  /** The text before the last colon, and the text behind it. */
  function AtLastColon(text: string): Option<(string, string)> {
    if text == "" then None
    else
      var last := |text| - 1;
      if text[last] == ':' then Some((text[..last], ""))
      else
        match AtLastColon(text[..last])
        case None => None
        case Some((front, behind)) => Some((front, behind + [text[last]]))
  }

  /** An identity read from its end: the index, the matcher, and in front of them the event behind its
      source. */
  function ReadIdentity(text: string): Option<(string, nat, nat)> {
    match AtLastColon(text)
    case None => None
    case Some((front, index)) =>
      match AtLastColon(front)
      case None => None
      case Some((named, matcher)) =>
        if |named| < 5 || named[..5] != "user:" || matcher == "" || index == "" then None
        else if ReadNumber(matcher, 0) == None || ReadNumber(index, 0) == None then None
        else Some((named[5..], ReadNumber(matcher, 0).value, ReadNumber(index, 0).value))
  }

  lemma {:induction false} NumberReads(n: nat, tail: string)
    ensures ReadNumber(Decimal.Numeral(n) + tail, 0) == ReadNumber(tail, n)
    decreases n
  {
    var digit := '0' + (n % 10) as char;
    var front: string := if n < 10 then "" else Decimal.Numeral(n / 10);
    assert Decimal.Numeral(n) + tail == front + ([digit] + tail);
    assert ([digit] + tail)[1..] == tail && "" + ([digit] + tail) == [digit] + tail;
    if n >= 10 { NumberReads(n / 10, [digit] + tail); }
  }

  lemma {:induction false} ColonReads(front: string, behind: string)
    requires ':' !in behind
    ensures AtLastColon(front + ":" + behind) == Some((front, behind))
    decreases |behind|
  {
    var text, last := front + ":" + behind, |front| + |behind|;
    if behind == "" {
      assert text[..last] == front;
    } else {
      assert text[last] == behind[|behind| - 1] && text[..last] == front + ":" + behind[..|behind| - 1];
      ColonReads(front, behind[..|behind| - 1]);
      assert behind[..|behind| - 1] + [behind[|behind| - 1]] == behind;
    }
  }

  /** An identity reads back as the event, the matcher's position and the hook's, whatever the event's name
      holds. */
  lemma IdentityReads(event: string, matcher: nat, index: nat)
    ensures ReadIdentity(Identity(event, matcher, index)) == Some((event, matcher, index))
  {
    var named, m, i := "user:" + event, Decimal.Numeral(matcher), Decimal.Numeral(index);
    NoColon(matcher);
    NoColon(index);
    NumberReads(matcher, "");
    NumberReads(index, "");
    assert m + "" == m && i + "" == i;
    hide Decimal.Numeral, AtLastColon, ReadNumber;
    assert Identity(event, matcher, index) == named + ":" + m + ":" + i;
    ColonReads(named + ":" + m, i);
    ColonReads(named, m);
    assert named[..5] == "user:" && named[5..] == event;
  }

  /** The file lists a hook of this hash under this identity. */
  predicate Lists(document: Document, event: string, matcher: nat, index: nat, identity: string, hashed: string,
                  hash: Hook -> string)
  {
    && IsAt(document, event, matcher, index)
    && identity == Identity(event, matcher, index)
    && hashed == hash(HookAt(document, event, matcher, index))
  }

  // ------------------------------------------------------------ installing

  datatype Answer = Linked(identity: string) | Missing(identity: string) | Created(identity: string) | Raises

  /** A hook of this hash in this event, under the matcher installing uses. */
  predicate Matches(document: Document, event: string, matcher: nat, index: nat, hashed: string, hash: Hook -> string) {
    && IsAt(document, event, matcher, index)
    && GroupsOf(document, event)[matcher].matcher == None
    && hash(HookAt(document, event, matcher, index)) == hashed
  }

  /** The first such hook at or after a place, group by group. */
  function FindFrom(document: Document, event: string, matcher: nat, index: nat, hashed: string, hash: Hook -> string):
    (found: Option<(nat, nat)>)
    requires matcher <= |GroupsOf(document, event)|
    requires matcher == |GroupsOf(document, event)| ==> index == 0
    requires matcher < |GroupsOf(document, event)| ==> index <= |ListOf(GroupsOf(document, event)[matcher].hooks)|
    decreases |GroupsOf(document, event)| - matcher,
              if matcher < |GroupsOf(document, event)|
              then |ListOf(GroupsOf(document, event)[matcher].hooks)| - index else 0
  {
    var groups := GroupsOf(document, event);
    if matcher == |groups| then None
    else if groups[matcher].matcher != None || index == |ListOf(groups[matcher].hooks)|
    then FindFrom(document, event, matcher + 1, 0, hashed, hash)
    else if hash(ListOf(groups[matcher].hooks)[index]) == hashed then Some((matcher, index))
    else FindFrom(document, event, matcher, index + 1, hashed, hash)
  }

  function Already(document: Document, event: string, hook: Hook, hash: Hook -> string): Option<(nat, nat)> {
    FindFrom(document, event, 0, 0, hash(hook), hash)
  }

  function Planned(document: Document, event: string): string {
    Identity(event, |GroupsOf(document, event)|, 0)
  }

  /** Both defaults are only taken where the member is missing: one that is there and null cannot be
      appended to. */
  predicate Appendable(document: Document, event: string) {
    && !document.hooks.Null?
    && (document.hooks.There? && event in document.hooks.value ==> !document.hooks.value[event].Null?)
  }

  function Appended(document: Document, event: string, hook: Hook): Document
    requires Appendable(document, event)
  {
    var events := if document.hooks.There? then document.hooks.value else map[];
    document.(hooks := There(events[event := There(GroupsOf(document, event) + [Group(None, There([hook]))])]))
  }

  function Installed(document: Document, event: string, hook: Hook, apply: bool, hash: Hook -> string):
    (Document, Answer)
  {
    match Already(document, event, hook, hash)
    case Some((matcher, index)) => (document, Linked(Identity(event, matcher, index)))
    case None =>
      if !apply then (document, Missing(Planned(document, event)))
      else if !Appendable(document, event) then (document, Raises)
      else (Appended(document, event, hook), Created(Planned(document, event)))
  }

  class HookFile {
    var document: Document

    constructor (document: Document)
      ensures this.document == document
    {
      this.document := document;
    }

    /** The inventory of one event under the installed matcher, walked for this hook; then one append at
        the end of the event. */
    method Install(event: string, hook: Hook, apply: bool, hash: Hook -> string) returns (answer: Answer)
      modifies this
      ensures (document, answer) == Installed(old(document), event, hook, apply, hash)
    {
      var groups := GroupsOf(document, event);
      var matcher := 0;
      while matcher < |groups|
        invariant 0 <= matcher <= |groups|
        invariant document == old(document)
        invariant Already(document, event, hook, hash) == FindFrom(document, event, matcher, 0, hash(hook), hash)
      {
        if groups[matcher].matcher == None {
          var hooks := ListOf(groups[matcher].hooks);
          var index := 0;
          while index < |hooks|
            invariant 0 <= index <= |hooks|
            invariant document == old(document)
            invariant Already(document, event, hook, hash)
                      == FindFrom(document, event, matcher, index, hash(hook), hash)
          {
            if hash(hooks[index]) == hash(hook) {
              return Linked(Identity(event, matcher, index));
            }
            index := index + 1;
          }
        }
        matcher := matcher + 1;
      }
      var identity := Identity(event, |groups|, 0);
      if !apply { return Missing(identity); }
      if document.hooks.Null? { return Raises; }
      var events := if document.hooks.There? then document.hooks.value else map[];
      if event in events && events[event].Null? { return Raises; }
      var list := if event in events then ListOf(events[event]) else [];
      events := events[event := There(list + [Group(None, There([hook]))])];
      document := document.(hooks := There(events));
      return Created(identity);
    }
  }

  // ------------------------------------------------------------ what installing keeps

  /** Every position of the old file holds the same hook in the new one. */
  ghost predicate Keeps(before: Document, after: Document) {
    && after.others == before.others
    && forall event: string :: Extends(before, after, event)
  }

  predicate Extends(before: Document, after: Document, event: string) {
    GroupsOf(before, event) <= GroupsOf(after, event)
  }

  lemma KeepsAll(before: Document, after: Document, event: string, matcher: nat, index: nat, identity: string,
                 hashed: string, hash: Hook -> string)
    requires Keeps(before, after) && Lists(before, event, matcher, index, identity, hashed, hash)
    ensures Lists(after, event, matcher, index, identity, hashed, hash)
  {
    assert Extends(before, after, event);
    assert GroupsOf(after, event)[matcher] == GroupsOf(before, event)[matcher];
  }

  lemma {:induction false} FindFromFinds(document: Document, event: string, matcher: nat, index: nat, hashed: string,
                                         hash: Hook -> string)
    requires matcher <= |GroupsOf(document, event)|
    requires matcher == |GroupsOf(document, event)| ==> index == 0
    requires matcher < |GroupsOf(document, event)| ==> index <= |ListOf(GroupsOf(document, event)[matcher].hooks)|
    ensures var found := FindFrom(document, event, matcher, index, hashed, hash);
            && (found.Some? ==> Matches(document, event, found.value.0, found.value.1, hashed, hash))
            && (found == None ==>
                  forall m: nat, k: nat :: Matches(document, event, m, k, hashed, hash) ==>
                    m < matcher || (m == matcher && k < index))
    decreases |GroupsOf(document, event)| - matcher,
              if matcher < |GroupsOf(document, event)|
              then |ListOf(GroupsOf(document, event)[matcher].hooks)| - index else 0
  {
    var groups := GroupsOf(document, event);
    if matcher < |groups| {
      if groups[matcher].matcher != None || index == |ListOf(groups[matcher].hooks)| {
        FindFromFinds(document, event, matcher + 1, 0, hashed, hash);
      } else {
        FindFromFinds(document, event, matcher, index + 1, hashed, hash);
      }
    }
  }

  lemma AppendedGroups(document: Document, event: string, hook: Hook, other: string)
    requires Appendable(document, event)
    ensures GroupsOf(Appended(document, event, hook), other)
            == if other == event then GroupsOf(document, event) + [Group(None, There([hook]))]
               else GroupsOf(document, other)
    ensures Keeps(document, Appended(document, event, hook))
  {
    forall one: string ensures Extends(document, Appended(document, event, hook), one) {
    }
  }

  /** Installing appends or does nothing: every identity recorded before names the same hook after. */
  lemma InstallKeeps(document: Document, event: string, hook: Hook, apply: bool, hash: Hook -> string)
    ensures Keeps(document, Installed(document, event, hook, apply, hash).0)
  {
    if Appendable(document, event) { AppendedGroups(document, event, hook, event); }
    forall one: string ensures Extends(document, document, one) {
    }
  }

  /** Exactly when each answer is given. */
  lemma AnswersExactly(document: Document, event: string, hook: Hook, apply: bool, hash: Hook -> string)
    ensures var (after, answer) := Installed(document, event, hook, apply, hash);
            var there := exists m: nat, k: nat :: Matches(document, event, m, k, hash(hook), hash);
            && (answer.Linked? <==> there)
            && (answer.Missing? <==> !there && !apply)
            && (answer.Raises? <==> !there && apply && !Appendable(document, event))
            && (answer.Created? <==> after != document)
            && (answer.Linked? ==> exists m: nat, k: nat ::
                  Matches(document, event, m, k, hash(hook), hash) && answer.identity == Identity(event, m, k))
  {
    FindFromFinds(document, event, 0, 0, hash(hook), hash);
    var found := Already(document, event, hook, hash);
    if found.Some? {
      assert Matches(document, event, found.value.0, found.value.1, hash(hook), hash);
    }
    if Appendable(document, event) {
      AppendedGroups(document, event, hook, event);
      assert |GroupsOf(Appended(document, event, hook), event)| == |GroupsOf(document, event)| + 1;
    }
  }

  /** Two files the shape check lets through and appending raises on: one whose hooks are null, and one
      whose list for the event is. Nothing is written to either. */
  lemma NullMembersRaise(event: string, hook: Hook, others: string, hash: Hook -> string)
    ensures var none := Document(Null, others);
            Installed(none, event, hook, true, hash) == (none, Raises)
    ensures var empty := Document(There(map[event := Null]), others);
            Installed(empty, event, hook, true, hash) == (empty, Raises)
  {
    AnswersExactly(Document(Null, others), event, hook, true, hash);
    AnswersExactly(Document(There(map[event := Null]), others), event, hook, true, hash);
  }

  /** A created hook sits at the identity the plan named, where nothing was before; installing it again
      finds it there, answers that it is linked and changes nothing. */
  lemma CreatedAsPlanned(document: Document, event: string, hook: Hook, again: bool, hash: Hook -> string)
    requires Installed(document, event, hook, true, hash).1.Created?
    ensures var (after, answer) := Installed(document, event, hook, true, hash);
            && answer.identity == Installed(document, event, hook, false, hash).1.identity
            && Lists(after, event, |GroupsOf(document, event)|, 0, answer.identity, hash(hook), hash)
            && !IsAt(document, event, |GroupsOf(document, event)|, 0)
            && Installed(after, event, hook, again, hash) == (after, Linked(answer.identity))
  {
    var (after, answer) := Installed(document, event, hook, true, hash);
    var groups := GroupsOf(document, event);
    AppendedGroups(document, event, hook, event);
    FindFromFinds(document, event, 0, 0, hash(hook), hash);
    FindFromFinds(after, event, 0, 0, hash(hook), hash);
    assert Matches(after, event, |groups|, 0, hash(hook), hash);
    var found := Already(after, event, hook, hash);
    assert found.Some?;
    var (m, k) := found.value;
    if m < |groups| {
      assert Matches(document, event, m, k, hash(hook), hash);
    }
    assert found == Some((|groups|, 0));
  }

  // ------------------------------------------------------------ any sequence of installs

  datatype Request = Request(event: string, hook: Hook, apply: bool)

  function InstallAll(document: Document, requests: seq<Request>, hash: Hook -> string): Document
    decreases |requests|
  {
    if requests == [] then document
    else InstallAll(Installed(document, requests[0].event, requests[0].hook, requests[0].apply, hash).0,
                    requests[1..], hash)
  }

  /** Over any installs, every identity keeps its hash, and no other hook ever takes it. */
  lemma {:induction false} IdentitiesStand(document: Document, requests: seq<Request>, hash: Hook -> string)
    ensures Keeps(document, InstallAll(document, requests, hash))
    decreases |requests|
  {
    if requests == [] {
      forall one: string ensures Extends(document, document, one) {
      }
    } else {
      var first := requests[0];
      var next := Installed(document, first.event, first.hook, first.apply, hash).0;
      var last := InstallAll(next, requests[1..], hash);
      InstallKeeps(document, first.event, first.hook, first.apply, hash);
      IdentitiesStand(next, requests[1..], hash);
      hide Installed, InstallAll;
      forall one: string ensures Extends(document, last, one) {
        assert Extends(document, next, one) && Extends(next, last, one);
      }
    }
  }

  /** What a trusted hash was recorded against is what is there after any installs, and nothing else
      carries that identity. */
  lemma TrustIsKept(document: Document, requests: seq<Request>, hash: Hook -> string,
                    event: string, matcher: nat, index: nat, identity: string, hashed: string)
    requires Lists(document, event, matcher, index, identity, hashed, hash)
    ensures var last := InstallAll(document, requests, hash);
            && Lists(last, event, matcher, index, identity, hashed, hash)
            && forall e: string, m: nat, k: nat, h: string ::
                 Lists(last, e, m, k, identity, h, hash) ==> h == hashed
  {
    IdentitiesStand(document, requests, hash);
    var last := InstallAll(document, requests, hash);
    KeepsAll(document, last, event, matcher, index, identity, hashed, hash);
    forall e: string, m: nat, k: nat, h: string | Lists(last, e, m, k, identity, h, hash)
      ensures h == hashed
    {
      IdentitiesDiffer(event, matcher, index, e, m, k);
    }
  }
}
