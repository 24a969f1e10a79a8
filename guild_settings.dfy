/**
 * The per-guild settings table (`guild_settings`: required role ids as
 * comma-separated text, target channel id) seen as a map from guild to row,
 * the read and merge-on-write rules around it, and the guards of the two
 * admin commands that write it.
 */
module GuildSettings {
  import opened Wrappers
  import opened RoleCodec

  type GuildId = nat
  type ChannelId = nat
  type UserId = nat

  /** The one user allowed to run the configuration commands. */
  const AUTHORIZED_USER_ID: UserId := 1005902785067372555

  /** One stored row: `required_role_ids TEXT`, `target_channel_id BIGINT`, both nullable. */
  datatype Row = Row(requiredRoleIds: Option<string>, targetChannelId: Option<ChannelId>)

  type Store = map<GuildId, Row>

  /** What `get_guild_settings` hands back: the role-id list and the optional channel. */
  datatype Settings = Settings(roleIds: seq<RoleId>, channelId: Option<ChannelId>)

  /**
   * `get_guild_settings`: no row gives `([], None)`; a row whose role text
   * does not parse raises inside the `try`, which also gives `([], None)`,
   * so the stored channel is lost with it.
   */
  function GetGuildSettings(store: Store, guild: GuildId): (s: Settings)
    ensures guild !in store ==> s == Settings([], None)
    ensures s.channelId.Some? ==> guild in store && s.channelId == store[guild].targetChannelId
    ensures s.roleIds != [] ==> guild in store && ParseRoleIds(store[guild].requiredRoleIds) == Some(s.roleIds)
    ensures guild in store && ParseRoleIds(store[guild].requiredRoleIds).None? ==> s == Settings([], None)
    ensures guild in store && ParseRoleIds(store[guild].requiredRoleIds).Some? ==>
              s == Settings(ParseRoleIds(store[guild].requiredRoleIds).value, store[guild].targetChannelId)
  {
    if guild !in store then Settings([], None)
    else
      match ParseRoleIds(store[guild].requiredRoleIds)
      case None => Settings([], None)
      case Some(ids) => Settings(ids, store[guild].targetChannelId)
  }

  /**
   * `save_guild_settings`: an argument left as `None` keeps what
   * `get_guild_settings` currently reports for that field; the merged pair
   * is upserted as the guild's row and no other guild's row changes.
   */
  function SaveGuildSettings(store: Store, guild: GuildId, roleIds: Option<seq<RoleId>>, channelId: Option<ChannelId>): (r: Store)
    ensures guild in r
    ensures forall h :: h != guild ==> (h in r <==> h in store)
    ensures forall h :: h != guild && h in store ==> r[h] == store[h]
    ensures GetGuildSettings(r, guild).roleIds ==
              if roleIds.Some? then roleIds.value else GetGuildSettings(store, guild).roleIds
    ensures GetGuildSettings(r, guild).channelId ==
              if channelId.Some? then channelId else GetGuildSettings(store, guild).channelId
  {
    var existing := GetGuildSettings(store, guild);
    var ids := roleIds.GetOr(existing.roleIds);
    var channel := if channelId.None? then existing.channelId else channelId;
    RoleIdsRoundTrip(ids);
    store[guild := Row(SerializeRoleIds(ids), channel)]
  }

  /** What an admin command answers (the wording of the chat replies is not modelled). */
  datatype AdminReply =
    | PermissionDenied
    | NoRolesMentioned
    | RolesSet(roleIds: seq<RoleId>)
    | ChannelSet(channelId: ChannelId)
    | ChannelNotFound

  /**
   * `!loggerrole @r1 @r2 ...`: only the authorized user, only with at least
   * one role; the role list is replaced and the channel kept.
   */
  function LoggerRole(store: Store, guild: GuildId, author: UserId, roleIds: seq<RoleId>): (r: (Store, AdminReply))
    ensures author != AUTHORIZED_USER_ID ==> r == (store, PermissionDenied)
    ensures author == AUTHORIZED_USER_ID && roleIds == [] ==> r == (store, NoRolesMentioned)
    ensures r.1.RolesSet? <==> author == AUTHORIZED_USER_ID && roleIds != []
    ensures r.1.RolesSet? ==> r.1.roleIds == roleIds
    ensures r.1.RolesSet? ==>
              GetGuildSettings(r.0, guild) == Settings(roleIds, GetGuildSettings(store, guild).channelId)
    ensures forall h :: h != guild ==> GetGuildSettings(r.0, h) == GetGuildSettings(store, h)
  {
    if author != AUTHORIZED_USER_ID then (store, PermissionDenied)
    else if roleIds == [] then (store, NoRolesMentioned)
    else (SaveGuildSettings(store, guild, Some(roleIds), None), RolesSet(roleIds))
  }

  /**
   * `!loggerchannel <id>`: only the authorized user, only for a channel the
   * bot can see (`visible` stands for `bot.get_channel` returning a channel);
   * the channel is replaced and the role list kept.
   */
  function LoggerChannel(store: Store, guild: GuildId, author: UserId, channelId: ChannelId, visible: set<ChannelId>): (r: (Store, AdminReply))
    ensures author != AUTHORIZED_USER_ID ==> r == (store, PermissionDenied)
    ensures author == AUTHORIZED_USER_ID && channelId !in visible ==> r == (store, ChannelNotFound)
    ensures r.1.ChannelSet? <==> author == AUTHORIZED_USER_ID && channelId in visible
    ensures r.1.ChannelSet? ==> r.1.channelId == channelId
    ensures r.1.ChannelSet? ==>
              GetGuildSettings(r.0, guild) == Settings(GetGuildSettings(store, guild).roleIds, Some(channelId))
    ensures forall h :: h != guild ==> GetGuildSettings(r.0, h) == GetGuildSettings(store, h)
  {
    if author != AUTHORIZED_USER_ID then (store, PermissionDenied)
    else if channelId in visible then (SaveGuildSettings(store, guild, None, Some(channelId)), ChannelSet(channelId))
    else (store, ChannelNotFound)
  }
}
