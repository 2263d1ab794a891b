/** The two event hooks of src/event_handling.rs that use the guild prefix cache: the back-fill
    of guilds that joined while the bot was down, and the per-message prefix lookup. */
module EventHandling {

  import opened Wrappers
  import opened Errors
  import opened GuildInfo

  /** `cache_ready` (lines 28-45): every listed guild without a cached prefix is added with the
      default prefix. `failures` names the guilds whose `add_guild` fails, and with what; such a
      failure is only logged, and the loop goes on with the next guild. */
  method CacheReady(t: GuildInfoTable, guilds: seq<GuildId>, failures: map<GuildId, SqlxError>)
    modifies t
    ensures old(t.Valid()) ==> t.Valid()
    ensures forall g | g in old(t.info) :: g in t.info && t.info[g] == old(t.info)[g]
    ensures forall g | g in t.info :: g in old(t.info) || (g in guilds && g !in failures)
    ensures old(t.Valid()) ==>
      forall g | g in guilds && g !in old(t.info) && g !in failures :: t.GetPrefix(g) == Some(t.defaultPrefix)
  {
    for i := 0 to |guilds|
      invariant old(t.Valid()) ==> t.Valid()
      invariant forall g | g in old(t.info) :: g in t.info && t.info[g] == old(t.info)[g]
      invariant forall g | g in t.info :: g in old(t.info) || (g in guilds[..i] && g !in failures)
      invariant old(t.Valid()) ==>
        forall g | g in guilds[..i] && g !in old(t.info) && g !in failures :: t.GetPrefix(g) == Some(t.defaultPrefix)
    {
      var guildId := guilds[i];
      var prefix := t.GetPrefix(guildId);
      if prefix.None? {
        var added := t.AddGuild(guildId, if guildId in failures then Some(failures[guildId]) else None);
        // An error is logged and otherwise ignored.
      }
      assert guilds[..i + 1] == guilds[..i] + [guildId];
    }
    assert guilds[..|guilds|] == guilds;
  }

  /** `dynamic_prefix` (lines 61-71): the cached prefix of the message's guild. A message from
      outside a guild makes the source panic on `unwrap`, so the guild is required. */
  function DynamicPrefix(t: GuildInfoTable, messageGuild: Option<GuildId>): (prefix: Option<string>)
    reads t
    requires messageGuild.Some?
    ensures prefix == t.GetPrefix(messageGuild.value)
    ensures t.Valid() ==>
      (prefix.Some? <==> ToI64(messageGuild.value) in t.table) &&
      (prefix.Some? ==> prefix.value == t.table[ToI64(messageGuild.value)])
  {
    t.GetPrefix(messageGuild.value)
  }
}
