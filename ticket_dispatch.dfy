/**
 * The claim-and-forward decision `on_message` takes for each incoming
 * message, as a transition on the per-guild claimed-channel sets; the exact
 * forwarded text; and runs of messages and admin commands, over which a
 * ticket channel is forwarded at most once.
 */
module TicketDispatch {
  import opened Wrappers
  import opened RoleCodec
  import opened GuildSettings
  import opened Text

  /** What the handler reads from a Discord message. `memberRoles` is None when `guild.get_member` finds no member. */
  datatype Message = Message(
    authorIsBot: bool,
    guild: GuildId,
    channel: ChannelId,
    channelName: string,
    authorMention: string,
    memberRoles: Option<seq<RoleId>>,
    content: string)

  /**
   * What one message causes outside the bot: nothing, a send of `text` to
   * the target channel (whose transport errors are caught and only logged),
   * or nothing but a "not found" log because the target channel is not
   * visible to the bot.
   */
  datatype Effect =
    | NoForward
    | Forwarded(target: ChannelId, text: string)
    | TargetMissing(target: ChannelId)

  /** `claimed_tickets`: guild id to the set of channel ids already claimed in it. */
  type Claims = map<GuildId, set<ChannelId>>

  const TicketPrefix: string := "ticket-"

  /** `message.channel.name and message.channel.name.startswith('ticket-')`. */
  predicate IsTicketChannel(name: string) {
    name != "" && TicketPrefix <= name
  }

  predicate IsClaimed(claims: Claims, guild: GuildId, channel: ChannelId) {
    guild in claims && channel in claims[guild]
  }

  /** Python truthiness of an optional channel id: present and non-zero. */
  predicate Truthy(channel: Option<ChannelId>) {
    channel.Some? && channel.value != 0
  }

  function AnyListed(roles: seq<RoleId>, roleIds: seq<RoleId>): (r: bool)
    ensures r <==> exists i :: 0 <= i < |roles| && roles[i] in roleIds
  {
    if roles == [] then false
    else if roles[0] in roleIds then true
    else
      var rest := AnyListed(roles[1..], roleIds);
      assert rest <==> exists i :: 1 <= i < |roles| && roles[i] in roleIds by {
        forall i | 1 <= i < |roles| ensures roles[i] == roles[1..][i - 1] { }
      }
      rest
  }

  /**
   * `user_has_any_required_role`: some role of the member is listed; false
   * when the member is missing or the list is empty.
   */
  function HasAnyRequiredRole(member: Option<seq<RoleId>>, roleIds: seq<RoleId>): (r: bool)
    ensures r <==> member.Some? && exists i :: 0 <= i < |member.value| && member.value[i] in roleIds
    ensures roleIds == [] || member.None? ==> !r
  {
    member.Some? && roleIds != [] && AnyListed(member.value, roleIds)
  }

  const Separator: string := "------------------------------"
  const NumberLabel: string := "Ticket Number : "
  const StaffLabel: string := "Staff Who Claimed : "
  const TypedLabel: string := "Typed : "

  /** The first line and the label of the second. */
  const Header: string := Separator + "\n" + NumberLabel

  function TypedLine(content: string): string {
    TypedLabel + content
  }

  function StaffLine(mention: string, content: string): string {
    StaffLabel + mention + "\n" + TypedLine(content)
  }

  /** The four-line text `forward_message_to_channel` sends. */
  function ForwardText(channelName: string, mention: string, content: string): (t: string)
    ensures |t| == |Separator| + |NumberLabel| + |channelName| + |StaffLabel| + |mention| + |TypedLabel| + |content| + 3
    ensures Separator + "\n" + NumberLabel <= t
    ensures t[|t| - |content|..] == content
  {
    Header + channelName + "\n" + StaffLine(mention, content)
  }

  /** The three values a forwarded text carries. */
  datatype ForwardFields = ForwardFields(channelName: string, mention: string, content: string)

  function ParseTypedLine(s: string): Option<string> {
    if TypedLabel <= s then Some(s[|TypedLabel|..]) else None
  }

  /** `StaffLabel`, the mention up to the next newline, then the typed line. */
  function ParseStaffLine(s: string): Option<(string, string)> {
    if !(StaffLabel <= s) then None
    else
      var rest := s[|StaffLabel|..];
      var k := IndexOf(rest, '\n');
      if k == |rest| then None
      else
        match ParseTypedLine(rest[k + 1..])
        case None => None
        case Some(content) => Some((rest[..k], content))
  }

  /** Reads a forwarded text back into its fields: the inverse of ForwardText. */
  function ParseForwardText(t: string): Option<ForwardFields> {
    if !(Header <= t) then None
    else
      var rest := t[|Header|..];
      var k := IndexOf(rest, '\n');
      if k == |rest| then None
      else
        match ParseStaffLine(rest[k + 1..])
        case None => None
        case Some((mention, content)) => Some(ForwardFields(rest[..k], mention, content))
  }

  /** In `a + "\n" + b` with no newline in `a`, the first line is `a` and what follows is `b`. */
  lemma FirstLine(a: string, b: string)
    requires '\n' !in a
    ensures var s := a + "\n" + b; IndexOf(s, '\n') == |a| && s[..|a|] == a && s[|a| + 1..] == b
  {
    var s := a + "\n" + b;
    assert forall i :: 0 <= i < |a| ==> s[i] == a[i];
    assert s[|a|] == '\n';
  }

  lemma StaffLineRoundTrip(mention: string, content: string)
    requires '\n' !in mention
    ensures ParseStaffLine(StaffLine(mention, content)) == Some((mention, content))
  {
    var s := StaffLine(mention, content);
    var rest := mention + "\n" + TypedLine(content);
    assert s == StaffLabel + rest;
    assert s[|StaffLabel|..] == rest;
    FirstLine(mention, TypedLine(content));
  }

  /**
   * The forwarded text is unambiguous: from it the channel name, the mention
   * and the whole message content are read back exactly, whatever the
   * content holds (channel names and mention markup hold no newline).
   */
  lemma ForwardTextRoundTrip(channelName: string, mention: string, content: string)
    requires '\n' !in channelName && '\n' !in mention
    ensures ParseForwardText(ForwardText(channelName, mention, content)) ==
              Some(ForwardFields(channelName, mention, content))
  {
    var t := ForwardText(channelName, mention, content);
    var rest := channelName + "\n" + StaffLine(mention, content);
    assert t == Header + rest;
    assert t[|Header|..] == rest;
    FirstLine(channelName, StaffLine(mention, content));
    StaffLineRoundTrip(mention, content);
  }

  /** `forward_message_to_channel`: send when `bot.get_channel` finds the target, otherwise only log. */
  function ForwardMessageToChannel(msg: Message, target: ChannelId, visible: set<ChannelId>): (e: Effect)
    ensures e != NoForward && e.target == target
    ensures e.Forwarded? <==> target in visible
    // what is sent carries the ticket's channel name, the author's mention and the message content, unaltered
    ensures e.Forwarded? && '\n' !in msg.channelName && '\n' !in msg.authorMention ==>
              ParseForwardText(e.text) == Some(ForwardFields(msg.channelName, msg.authorMention, msg.content))
  {
    if target in visible then
      var text := ForwardText(msg.channelName, msg.authorMention, msg.content);
      assert '\n' !in msg.channelName && '\n' !in msg.authorMention ==>
               ParseForwardText(text) == Some(ForwardFields(msg.channelName, msg.authorMention, msg.content)) by {
        if '\n' !in msg.channelName && '\n' !in msg.authorMention {
          ForwardTextRoundTrip(msg.channelName, msg.authorMention, msg.content);
        }
      }
      Forwarded(target, text)
    else TargetMissing(target)
  }

  /** `claimed_tickets[guild_id] = set()` when the guild has no set yet. */
  function EnsureGuild(claims: Claims, guild: GuildId): (r: Claims)
    ensures guild in r && (guild !in claims ==> r[guild] == {})
    ensures forall g :: g in claims ==> g in r && r[g] == claims[g]
    ensures forall g :: g in r && g != guild ==> g in claims
  {
    if guild in claims then claims else claims[guild := {}]
  }

  /** `claimed_tickets[guild_id].add(channel_id)`: one more claim, nothing else changes. */
  function AddClaim(claims: Claims, guild: GuildId, channel: ChannelId): (r: Claims)
    requires guild in claims
    ensures r.Keys == claims.Keys
    ensures r[guild] == claims[guild] + {channel}
    ensures forall g :: g in claims && g != guild ==> r[g] == claims[g]
  {
    claims[guild := claims[guild] + {channel}]
  }

  /**
   * One `on_message` call, taken as one atomic step: the claimed sets after
   * it and what it sends. `store` is the settings table at that moment and
   * `visible` the channels `bot.get_channel` can find.
   */
  function Step(claims: Claims, store: Store, msg: Message, visible: set<ChannelId>): (r: (Claims, Effect))
    // bots and non-ticket channels: nothing at all
    ensures msg.authorIsBot || !IsTicketChannel(msg.channelName) ==> r == (claims, NoForward)
    // an already claimed channel: nothing, whatever the roles or settings
    ensures IsClaimed(claims, msg.guild, msg.channel) ==> r == (claims, NoForward)
    // a ticket message creates its guild's set lazily
    ensures !msg.authorIsBot && IsTicketChannel(msg.channelName) ==> msg.guild in r.0
    // claimed sets only grow, and only by this message's channel in this message's guild
    ensures forall g :: g in claims ==> g in r.0 && claims[g] <= r.0[g]
    ensures forall g :: g in r.0 && g != msg.guild ==> g in claims && r.0[g] == claims[g]
    ensures forall g, c :: IsClaimed(r.0, g, c) && !IsClaimed(claims, g, c) ==> g == msg.guild && c == msg.channel
    // a channel becomes claimed exactly when a forward is attempted, and that is when
    // the target is set and the author holds a listed role
    ensures (IsClaimed(r.0, msg.guild, msg.channel) && !IsClaimed(claims, msg.guild, msg.channel)) <==> r.1 != NoForward
    ensures r.1 != NoForward <==>
              && !msg.authorIsBot
              && IsTicketChannel(msg.channelName)
              && !IsClaimed(claims, msg.guild, msg.channel)
              && Truthy(GetGuildSettings(store, msg.guild).channelId)
              && HasAnyRequiredRole(msg.memberRoles, GetGuildSettings(store, msg.guild).roleIds)
    // what is sent, and where; the claim stands even when the target is missing
    ensures r.1 != NoForward ==> Some(r.1.target) == GetGuildSettings(store, msg.guild).channelId
    ensures r.1 != NoForward ==> (r.1.Forwarded? <==> r.1.target in visible)
    ensures r.1.Forwarded? ==> r.1.text == ForwardText(msg.channelName, msg.authorMention, msg.content)
  {
    if msg.authorIsBot || !IsTicketChannel(msg.channelName) then (claims, NoForward)
    else
      var claims' := EnsureGuild(claims, msg.guild);
      if msg.channel in claims'[msg.guild] then (claims', NoForward)
      else
        var settings := GetGuildSettings(store, msg.guild);
        if Truthy(settings.channelId) && HasAnyRequiredRole(msg.memberRoles, settings.roleIds) then
          (AddClaim(claims', msg.guild, msg.channel), ForwardMessageToChannel(msg, settings.channelId.value, visible))
        else (claims', NoForward)
  }

  /** What reaches the bot over time: messages, and the two configuration commands. */
  datatype Event =
    | Incoming(msg: Message, visible: set<ChannelId>)
    | SetRoles(guild: GuildId, author: UserId, roleIds: seq<RoleId>)
    | SetChannel(guild: GuildId, author: UserId, channelId: ChannelId, visible: set<ChannelId>)

  datatype Outcome = Dispatched(effect: Effect) | Replied(reply: AdminReply)

  /** The in-memory claims together with the settings table. */
  datatype World = World(claims: Claims, store: Store)

  function Apply(w: World, e: Event): (r: (World, Outcome))
    ensures !e.Incoming? ==> r.0.claims == w.claims && r.1.Replied?
    ensures e.Incoming? ==> r.0.store == w.store && r.1.Dispatched?
  {
    match e
    case Incoming(msg, visible) =>
      var (claims', effect) := Step(w.claims, w.store, msg, visible);
      (World(claims', w.store), Dispatched(effect))
    case SetRoles(guild, author, roleIds) =>
      var (store', reply) := LoggerRole(w.store, guild, author, roleIds);
      (World(w.claims, store'), Replied(reply))
    case SetChannel(guild, author, channelId, visible) =>
      var (store', reply) := LoggerChannel(w.store, guild, author, channelId, visible);
      (World(w.claims, store'), Replied(reply))
  }

  /** Events handled one after another, each atomically; one outcome per event. */
  function Run(w: World, events: seq<Event>): (r: (World, seq<Outcome>))
    ensures |r.1| == |events|
    decreases |events|
  {
    if events == [] then (w, [])
    else
      var (w1, o) := Apply(w, events[0]);
      var (w2, os) := Run(w1, events[1..]);
      (w2, [o] + os)
  }

  /** Is `o` a forward attempt caused by a message in channel `channel` of guild `guild`? */
  predicate ForwardsFrom(e: Event, o: Outcome, guild: GuildId, channel: ChannelId) {
    e.Incoming? && e.msg.guild == guild && e.msg.channel == channel && o.Dispatched? && o.effect != NoForward
  }

  /** How many of the outcomes are forward attempts for that channel. */
  function ForwardCount(events: seq<Event>, outcomes: seq<Outcome>, guild: GuildId, channel: ChannelId): nat
    requires |outcomes| == |events|
  {
    if events == [] then 0
    else (if ForwardsFrom(events[0], outcomes[0], guild, channel) then 1 else 0)
         + ForwardCount(events[1..], outcomes[1..], guild, channel)
  }

  /** Claims made during a run are never undone. */
  lemma {:induction false} RunKeepsClaims(w: World, events: seq<Event>, guild: GuildId, channel: ChannelId)
    requires IsClaimed(w.claims, guild, channel)
    ensures IsClaimed(Run(w, events).0.claims, guild, channel)
    decreases |events|
  {
    if events != [] {
      RunKeepsClaims(Apply(w, events[0]).0, events[1..], guild, channel);
    }
  }

  /**
   * At most one forward per ticket channel: over any run, however messages
   * and configuration commands interleave, a channel sees one forward
   * attempt if it became claimed during the run and none otherwise; in
   * particular a channel claimed at the start is never forwarded again.
   */
  lemma {:induction false} AtMostOnceForward(w: World, events: seq<Event>, guild: GuildId, channel: ChannelId)
    ensures ForwardCount(events, Run(w, events).1, guild, channel) ==
              if IsClaimed(Run(w, events).0.claims, guild, channel) && !IsClaimed(w.claims, guild, channel) then 1 else 0
    decreases |events|
  {
    if events != [] {
      var (w1, o) := Apply(w, events[0]);
      var r := Run(w, events);
      assert r.1[1..] == Run(w1, events[1..]).1;
      AtMostOnceForward(w1, events[1..], guild, channel);
      if IsClaimed(w1.claims, guild, channel) {
        RunKeepsClaims(w1, events[1..], guild, channel);
      }
    }
  }
}
