// The reactions on cached messages (state/state_events.go), saved through the update of the default
// message store (state/store/defaultstore/message.go).

module Reactions {
  import opened Optional

  type UserID = nat
  type MessageKey = (nat, nat)   // channel and message

  datatype Emoji = Emoji(id: nat, name: string, animated: bool)
  datatype Reaction = Reaction(count: int, me: bool, emoji: Emoji)

  /** A Go slice may be nil, which is not the same as empty. */
  datatype Slice = Nil | Items(items: seq<Reaction>)

  /** The fields other than the reactions that an update may overwrite. */
  datatype Field = Content | EditedTimestamp | Mentions | Embeds | Attachments | Timestamp | Author | Components

  /** `fields` has the fields that are set: a nonempty content, a valid time or author, a slice that is
      not nil. `rest` is everything that an update leaves alone. */
  datatype Message = Message(rest: string, fields: map<Field, string>, reactions: Slice)

  datatype Event =
    | Add(user: UserID, emoji: Emoji)
    | Remove(user: UserID, emoji: Emoji)
    | RemoveAll
    | RemoveEmoji(emoji: Emoji)

  function List(s: Slice): seq<Reaction> {
    if s.Nil? then [] else s.items
  }

  /** What tells emojis apart. */
  function Key(e: Emoji): (nat, string) {
    (e.id, e.name)
  }

  /** The first entry for an emoji, or -1. */
  function Find(rs: seq<Reaction>, emoji: Emoji): (i: int)
    ensures -1 <= i < |rs|
    ensures i >= 0 ==> Key(rs[i].emoji) == Key(emoji)
    ensures forall j :: 0 <= j < (if i < 0 then |rs| else i) ==> Key(rs[j].emoji) != Key(emoji)
  {
    if rs == [] then -1
    else
      var i := Find(rs[..|rs| - 1], emoji);
      if i >= 0 then i
      else if Key(rs[|rs| - 1].emoji) == Key(emoji) then |rs| - 1
      else -1
  }

  method FindReaction(rs: seq<Reaction>, emoji: Emoji) returns (i: int)
    ensures i == Find(rs, emoji)
  {
    i := 0;
    while i < |rs|
      invariant 0 <= i <= |rs|
      invariant forall j :: 0 <= j < i ==> Key(rs[j].emoji) != Key(emoji)
    {
      if rs[i].emoji.id == emoji.id && rs[i].emoji.name == emoji.name {
        return;
      }
      i := i + 1;
    }
    i := -1;
  }

  function Without(rs: seq<Reaction>, i: nat): seq<Reaction>
    requires i < |rs|
  {
    rs[..i] + rs[i + 1..]
  }

  /** The cached list after an event. A list set to nil is not saved, so RemoveAll changes nothing. */
  function After(rs: seq<Reaction>, ev: Event, self: Option<UserID>): seq<Reaction> {
    match ev
    case Add(user, emoji) =>
      var i, me := Find(rs, emoji), self == Some(user);
      if i >= 0 then rs[i := rs[i].(count := rs[i].count + 1, me := rs[i].me || me)]
      else rs + [Reaction(1, me, emoji)]
    case Remove(user, emoji) =>
      var i := Find(rs, emoji);
      if i < 0 then rs
      else if rs[i].count - 1 < 1 then Without(rs, i)
      else rs[i := rs[i].(count := rs[i].count - 1, me := rs[i].me && self != Some(user))]
    case RemoveAll => rs
    case RemoveEmoji(emoji) =>
      var i := Find(rs, emoji);
      if i < 0 then rs else Without(rs, i)
  }

  /** The function an event passes to editMessage: the message changed, and whether to save it. */
  method Edited(m: Message, ev: Event, self: Option<UserID>) returns (r: Message, save: bool)
    ensures r.rest == m.rest && r.fields == m.fields
    ensures var after := After(List(m.reactions), ev, self);
            if !save then after == List(m.reactions)
            else if ev.RemoveAll? then r.reactions == Nil
            else r.reactions == Items(after)
  {
    hide Find;
    var rs := List(m.reactions);
    save, r := true, m;
    match ev {
      case Add(user, emoji) =>
        var mine := self.Some? && self.value == user;
        var i := FindReaction(rs, emoji);
        if i > -1 {
          rs := rs[i := rs[i].(count := rs[i].count + 1)];
          rs := rs[i := rs[i].(me := rs[i].me || mine)];
        } else {
          rs := rs + [Reaction(1, mine, emoji)];
        }
        r := m.(reactions := Items(rs));
      case Remove(user, emoji) =>
        var i := FindReaction(rs, emoji);
        if i < 0 {
          return m, false;
        }
        if rs[i].count - 1 < 1 {
          rs := rs[..i] + rs[i + 1..];
        } else {
          rs := rs[i := rs[i].(count := rs[i].count - 1)];
          if rs[i].me && self.Some? && user == self.value {
            rs := rs[i := rs[i].(me := false)];
          }
        }
        r := m.(reactions := Items(rs));
      case RemoveAll =>
        r := m.(reactions := Nil);
      case RemoveEmoji(emoji) =>
        var i := FindReaction(rs, emoji);
        if i < 0 {
          return m, false;
        }
        r := m.(reactions := Items(rs[..i] + rs[i + 1..]));
    }
  }

  /** The part of the store that caches the messages, and who the current user is, if known. */
  class Cache {
    var messages: map<MessageKey, Message>
    var me: Option<UserID>

    constructor (me: Option<UserID>)
      ensures messages == map[] && this.me == me
    {
      messages, this.me := map[], me;
    }

    /** MessageSet with update: DiffMessage overwrites only with fields that are set. */
    method Update(key: MessageKey, m: Message)
      modifies this`messages
      ensures messages == if key !in old(messages) then old(messages)
                          else old(messages)[key := Message(
                                 old(messages)[key].rest, old(messages)[key].fields + m.fields,
                                 if m.reactions.Items? then m.reactions else old(messages)[key].reactions)]
    {
      if key in messages {
        var held := messages[key];
        held := held.(fields := held.fields + m.fields);
        if !m.reactions.Nil? {
          held := held.(reactions := m.reactions);
        }
        messages := messages[key := held];
      }
    }

    /** editMessage with the function of the event: changes a copy and saves it. */
    method OnReaction(key: MessageKey, ev: Event)
      modifies this`messages
      ensures messages.Keys == old(messages).Keys
      ensures forall k <- messages ::
                && messages[k].rest == old(messages)[k].rest && messages[k].fields == old(messages)[k].fields
                && List(messages[k].reactions)
                   == if k == key then After(List(old(messages)[k].reactions), ev, me)
                      else List(old(messages)[k].reactions)
    {
      if key !in messages {
        return;
      }
      var m, save := Edited(messages[key], ev, me);
      if !save {
        return;
      }
      Update(key, m);
    }
  }

  // The list stands for a relation.

  /** Who reacted with what. */
  type Relation = map<(nat, string), set<UserID>>

  function Reactors(rel: Relation, e: Emoji): set<UserID> {
    if Key(e) in rel then rel[Key(e)] else {}
  }

  /** What an event means. */
  function Meaning(rel: Relation, ev: Event): Relation {
    match ev
    case Add(user, emoji) => rel[Key(emoji) := Reactors(rel, emoji) + {user}]
    case Remove(user, emoji) =>
      var rest := Reactors(rel, emoji) - {user};
      if rest == {} then rel - {Key(emoji)} else rel[Key(emoji) := rest]
    case RemoveAll => map[]
    case RemoveEmoji(emoji) => rel - {Key(emoji)}
  }

  /** Users add reactions they have not made and remove those they have. */
  predicate Possible(rel: Relation, ev: Event) {
    match ev
    case Add(user, emoji) => user !in Reactors(rel, emoji)
    case Remove(user, emoji) => user in Reactors(rel, emoji)
    case _ => true
  }

  ghost predicate DistinctKeys(rs: seq<Reaction>) {
    forall i, j :: 0 <= i < j < |rs| ==> Key(rs[i].emoji) != Key(rs[j].emoji)
  }

  predicate Listed(rs: seq<Reaction>, k: (nat, string)) {
    exists i :: 0 <= i < |rs| && Key(rs[i].emoji) == k
  }

  /** One entry against the users who reacted with its emoji. */
  predicate Counts(r: Reaction, rel: Relation, self: Option<UserID>) {
    && Reactors(rel, r.emoji) != {}
    && r.count == |Reactors(rel, r.emoji)|
    && (r.me <==> self.Some? && self.value in Reactors(rel, r.emoji))
  }

  /** One entry per emoji somebody reacted with, counting its users and saying whether one is
      the current user. */
  ghost predicate Refines(rs: seq<Reaction>, rel: Relation, self: Option<UserID>) {
    && DistinctKeys(rs)
    && (forall i :: 0 <= i < |rs| ==> Counts(rs[i], rel, self))
    && (forall k :: k in rel <==> Listed(rs, k))
  }

  lemma WithoutKeys(rs: seq<Reaction>, i: nat)
    requires i < |rs| && DistinctKeys(rs)
    ensures DistinctKeys(Without(rs, i))
    ensures forall k :: Listed(Without(rs, i), k) <==> Listed(rs, k) && k != Key(rs[i].emoji)
  {
    var w := Without(rs, i);
    forall k ensures Listed(w, k) <==> Listed(rs, k) && k != Key(rs[i].emoji) {
      if Listed(rs, k) && k != Key(rs[i].emoji) {
        var j :| 0 <= j < |rs| && Key(rs[j].emoji) == k;
        assert w[if j < i then j else j - 1] == rs[j];
      }
    }
  }

  lemma UpdatedKeys(rs: seq<Reaction>, i: nat, r: Reaction)
    requires i < |rs| && DistinctKeys(rs) && Key(r.emoji) == Key(rs[i].emoji)
    ensures DistinctKeys(rs[i := r])
    ensures forall k :: Listed(rs[i := r], k) <==> Listed(rs, k)
  {
    forall k ensures Listed(rs[i := r], k) <==> Listed(rs, k) {
      if j :| 0 <= j < |rs| && Key(rs[j].emoji) == k {
        assert Key(rs[i := r][j].emoji) == k;
      }
    }
  }

  lemma NewKey(rs: seq<Reaction>, r: Reaction)
    requires DistinctKeys(rs) && Find(rs, r.emoji) < 0
    ensures DistinctKeys(rs + [r])
    ensures forall k :: Listed(rs + [r], k) <==> Listed(rs, k) || k == Key(r.emoji)
  {
    forall k ensures Listed(rs + [r], k) <==> Listed(rs, k) || k == Key(r.emoji) {
      if j :| 0 <= j < |rs| && Key(rs[j].emoji) == k {
        assert (rs + [r])[j] == rs[j];
      }
      assert (rs + [r])[|rs|] == r;
    }
  }

  /** The relations differ at one emoji at most. */
  ghost predicate SameBut(rel: Relation, rel': Relation, k: (nat, string)) {
    forall l | l != k :: (l in rel' <==> l in rel) && (l in rel ==> rel'[l] == rel[l])
  }

  lemma OthersCount(rs: seq<Reaction>, rel: Relation, rel': Relation, k: (nat, string), self: Option<UserID>)
    requires SameBut(rel, rel', k) && forall i :: 0 <= i < |rs| ==> Counts(rs[i], rel, self)
    ensures forall i :: 0 <= i < |rs| && Key(rs[i].emoji) != k ==> Counts(rs[i], rel', self)
  {
  }

  lemma UpdateRefines(rs: seq<Reaction>, rel: Relation, i: nat, r: Reaction, rel': Relation, self: Option<UserID>)
    requires Refines(rs, rel, self) && i < |rs| && Key(r.emoji) == Key(rs[i].emoji)
    requires SameBut(rel, rel', Key(r.emoji)) && Key(r.emoji) in rel' && Counts(r, rel', self)
    ensures Refines(rs[i := r], rel', self)
  {
    OthersCount(rs, rel, rel', Key(r.emoji), self);
    UpdatedKeys(rs, i, r);
    hide Counts, Listed;
    assert Listed(rs, Key(rs[i].emoji)) by { IsListed(rs, i); }
  }

  lemma IsListed(rs: seq<Reaction>, i: nat)
    requires i < |rs|
    ensures Listed(rs, Key(rs[i].emoji))
  {
  }

  lemma DropRefines(rs: seq<Reaction>, rel: Relation, i: nat, self: Option<UserID>)
    requires Refines(rs, rel, self) && i < |rs|
    ensures Refines(Without(rs, i), rel - {Key(rs[i].emoji)}, self)
  {
    OthersCount(rs, rel, rel - {Key(rs[i].emoji)}, Key(rs[i].emoji), self);
    WithoutKeys(rs, i);
    hide Counts, Listed;
  }

  lemma AppendRefines(rs: seq<Reaction>, rel: Relation, r: Reaction, rel': Relation, self: Option<UserID>)
    requires Refines(rs, rel, self) && Find(rs, r.emoji) < 0
    requires SameBut(rel, rel', Key(r.emoji)) && Key(r.emoji) in rel' && Counts(r, rel', self)
    ensures Refines(rs + [r], rel', self)
  {
    OthersCount(rs, rel, rel', Key(r.emoji), self);
    NewKey(rs, r);
    hide Counts, Listed;
  }

  lemma AddRefines(rs: seq<Reaction>, rel: Relation, user: UserID, emoji: Emoji, self: Option<UserID>)
    requires Refines(rs, rel, self) && user !in Reactors(rel, emoji)
    ensures Refines(After(rs, Add(user, emoji), self), Meaning(rel, Add(user, emoji)), self)
  {
    var i, rel' := Find(rs, emoji), Meaning(rel, Add(user, emoji));
    if i >= 0 {
      assert Counts(rs[i], rel, self);
      UpdateRefines(rs, rel, i, After(rs, Add(user, emoji), self)[i], rel', self);
    } else {
      assert Key(emoji) !in rel;
      AppendRefines(rs, rel, Reaction(1, self == Some(user), emoji), rel', self);
    }
  }

  lemma RemoveRefines(rs: seq<Reaction>, rel: Relation, user: UserID, emoji: Emoji, self: Option<UserID>)
    requires Refines(rs, rel, self) && user in Reactors(rel, emoji)
    ensures Refines(After(rs, Remove(user, emoji), self), Meaning(rel, Remove(user, emoji)), self)
  {
    assert Listed(rs, Key(emoji));
    var i, rest := Find(rs, emoji), Reactors(rel, emoji) - {user};
    assert Counts(rs[i], rel, self);
    assert |rest| == rs[i].count - 1;
    if rs[i].count - 1 < 1 {
      assert rest == {};
      DropRefines(rs, rel, i, self);
    } else {
      UpdateRefines(rs, rel, i, After(rs, Remove(user, emoji), self)[i], Meaning(rel, Remove(user, emoji)), self);
    }
  }

  lemma RemoveEmojiRefines(rs: seq<Reaction>, rel: Relation, emoji: Emoji, self: Option<UserID>)
    requires Refines(rs, rel, self)
    ensures Refines(After(rs, RemoveEmoji(emoji), self), Meaning(rel, RemoveEmoji(emoji)), self)
  {
    var i := Find(rs, emoji);
    if i >= 0 {
      DropRefines(rs, rel, i, self);
    } else {
      assert !Listed(rs, Key(emoji));
      assert rel - {Key(emoji)} == rel;
    }
  }

  /** Each event keeps the list in step with the relation, except that removing all reactions
      is lost unless there are none. */
  lemma EventRefinesIff(rs: seq<Reaction>, rel: Relation, ev: Event, self: Option<UserID>)
    requires Refines(rs, rel, self) && Possible(rel, ev)
    ensures Refines(After(rs, ev, self), Meaning(rel, ev), self) <==> !(ev.RemoveAll? && rs != [])
  {
    match ev {
      case Add(user, emoji) => AddRefines(rs, rel, user, emoji, self);
      case Remove(user, emoji) => RemoveRefines(rs, rel, user, emoji, self);
      case RemoveEmoji(emoji) => RemoveEmojiRefines(rs, rel, emoji, self);
      case RemoveAll =>
        if rs != [] {
          assert Listed(rs, Key(rs[0].emoji));
        }
    }
  }

  // Runs.

  function Run(events: seq<Event>, self: Option<UserID>): seq<Reaction> {
    if events == [] then [] else After(Run(events[..|events| - 1], self), events[|events| - 1], self)
  }

  function Truth(events: seq<Event>): Relation {
    if events == [] then map[] else Meaning(Truth(events[..|events| - 1]), events[|events| - 1])
  }

  /** Only possible events, and none that removes all of some reactions. */
  predicate Ordinary(events: seq<Event>) {
    events == []
    || (var before, ev := events[..|events| - 1], events[|events| - 1];
        Ordinary(before) && Possible(Truth(before), ev) && (ev.RemoveAll? ==> Truth(before) == map[]))
  }

  lemma {:induction false} RunRefines(events: seq<Event>, self: Option<UserID>)
    requires Ordinary(events)
    ensures Refines(Run(events, self), Truth(events), self)
  {
    if events != [] {
      var before := events[..|events| - 1];
      RunRefines(before, self);
      var rs := Run(before, self);
      if rs != [] {
        IsListed(rs, 0);
      }
      EventRefinesIff(rs, Truth(before), events[|events| - 1], self);
    }
  }

  /** A run whose last event is lost: nobody reacts any more, but the list has its entry still. */
  lemma RemoveAllIsLost(user: UserID, emoji: Emoji, self: Option<UserID>)
    ensures var events := [Add(user, emoji), RemoveAll];
            Truth(events) == map[] && Run(events, self) == [Reaction(1, self == Some(user), emoji)]
  {
    var first := [Add(user, emoji)];
    assert [Add(user, emoji), RemoveAll][..1] == first && first[..0] == [];
    assert Run([], self) == [] && Truth([]) == map[];
    assert Run(first, self) == [Reaction(1, self == Some(user), emoji)];
  }

  /** Whatever events arrive, possible or not, emojis stay distinct and counts positive. */
  ghost predicate WellFormed(rs: seq<Reaction>) {
    DistinctKeys(rs) && forall i :: 0 <= i < |rs| ==> rs[i].count >= 1
  }

  lemma AfterIsWellFormed(rs: seq<Reaction>, ev: Event, self: Option<UserID>)
    requires WellFormed(rs)
    ensures WellFormed(After(rs, ev, self))
  {
    var i := if ev.RemoveAll? then -1 else Find(rs, ev.emoji);
    if i >= 0 {
      WithoutKeys(rs, i);
      UpdatedKeys(rs, i, rs[i].(count := rs[i].count + 1));
    } else if ev.Add? {
      NewKey(rs, Reaction(1, self == Some(ev.user), ev.emoji));
    }
  }

  lemma {:induction false} RunIsWellFormed(events: seq<Event>, self: Option<UserID>)
    ensures WellFormed(Run(events, self))
  {
    if events != [] {
      RunIsWellFormed(events[..|events| - 1], self);
      AfterIsWellFormed(Run(events[..|events| - 1], self), events[|events| - 1], self);
    }
  }
}
