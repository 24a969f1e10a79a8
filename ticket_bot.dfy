/**
 * The bot process's own state: the `claimed_tickets` dictionary, which lives
 * only in memory and is updated in place by the message handler.
 */
module TicketBot {
  import opened Wrappers
  import opened GuildSettings
  import opened TicketDispatch

  class TicketForwarder {
    /** Guild id to the ticket channels already forwarded in it. */
    var claimedTickets: Claims

    /** A fresh process: nothing claimed yet. */
    constructor ()
      ensures claimedTickets == map[]
    {
      claimedTickets := map[];
    }

    /**
     * `on_message` for one message, as one atomic step. The settings table
     * is read as `store`; `visible` is what `bot.get_channel` can find.
     * Command processing, which always follows, is not part of this model.
     */
    method OnMessage(msg: Message, store: Store, visible: set<ChannelId>) returns (effect: Effect)
      modifies this
      ensures (claimedTickets, effect) == Step(old(claimedTickets), store, msg, visible)
      ensures forall g :: g in old(claimedTickets) ==> g in claimedTickets && old(claimedTickets)[g] <= claimedTickets[g]
      ensures IsClaimed(old(claimedTickets), msg.guild, msg.channel) ==> effect == NoForward
    {
      effect := NoForward;
      if msg.authorIsBot {
        return;
      }
      if msg.channelName != "" && TicketPrefix <= msg.channelName {
        var guild := msg.guild;
        if guild !in claimedTickets {
          claimedTickets := claimedTickets[guild := {}];
        }
        if msg.channel !in claimedTickets[guild] {
          var settings := GetGuildSettings(store, guild);
          if settings.channelId.Some? && settings.channelId.value != 0
             && HasAnyRequiredRole(msg.memberRoles, settings.roleIds)
          {
            effect := ForwardMessageToChannel(msg, settings.channelId.value, visible);
            claimedTickets := claimedTickets[guild := claimedTickets[guild] + {msg.channel}];
          }
        }
      }
    }
  }
}
