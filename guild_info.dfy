/** The guild prefix cache of src/database/queries.rs (lines 14-134): `GuildInfoTable` keeps an
    in-memory map from guild to its row of the `guild_info` table, in step with the table.

    The database is modelled as a second map owned by the object, from the `guild_id` column to
    the `prefix` column, with `guild_id` unique. A query that fails in the database library
    (lost connection and the like) is modelled by an `Option<SqlxError>` argument that the
    caller supplies. */
module GuildInfo {

  import opened Wrappers
  import opened Errors

  type u64 = x: int | 0 <= x < 0x1_0000_0000_0000_0000
  type i64 = x: int | -0x8000_0000_0000_0000 <= x < 0x8000_0000_0000_0000

  /** A guild id (`GuildId`, an unsigned 64-bit snowflake). */
  type GuildId = u64

  /** `i64::from(guild_id)`: the same 64 bits read as a signed number. */
  function ToI64(g: GuildId): i64
  {
    if g < 0x8000_0000_0000_0000 then g else g - 0x1_0000_0000_0000_0000
  }

  /** `x.guild_id as u64`: the same 64 bits read as an unsigned number. */
  function ToU64(x: i64): GuildId
  {
    if x >= 0 then x else x + 0x1_0000_0000_0000_0000
  }

  /** A row of `guild_info`. */
  datatype GuildInfoStruct = GuildInfoStruct(guildId: i64, prefix: string)

  /** `info` holds exactly the rows of `table`, each under the guild it belongs to. */
  ghost predicate Mirrors(info: map<GuildId, GuildInfoStruct>, table: map<i64, string>)
  {
    && (forall g: GuildId :: g in info <==> ToI64(g) in table)
    && (forall g | g in info :: info[g] == GuildInfoStruct(ToI64(g), table[ToI64(g)]))
  }

  /** `get_all_guild_info` (lines 49-59): every row, keyed by its guild. */
  function GetAllGuildInfo(table: map<i64, string>): (info: map<GuildId, GuildInfoStruct>)
    ensures Mirrors(info, table)
  {
    map g: GuildId | 0 <= g < 0x1_0000_0000_0000_0000 && ToI64(g) in table :: GuildInfoStruct(ToI64(g), table[ToI64(g)])
  }

  class GuildInfoTable {
    const defaultPrefix: string
    /** The in-memory cache, `info`. */
    var info: map<GuildId, GuildInfoStruct>
    /** The `guild_info` table of the database. */
    var table: map<i64, string>

    /** The cache holds exactly the table's rows. */
    ghost predicate Valid()
      reads this
    {
      Mirrors(info, table)
    }

    /** `GuildInfoTable::new` after a successful read of the table (lines 40-47). */
    constructor (defaultPrefix: string, table: map<i64, string>)
      ensures this.defaultPrefix == defaultPrefix && this.table == table
      ensures info == GetAllGuildInfo(table) && Valid()
    {
      this.defaultPrefix := defaultPrefix;
      this.table := table;
      this.info := GetAllGuildInfo(table);
    }

    /** `get_prefix` (lines 61-65): the cached prefix of the guild, if it has one. */
    function GetPrefix(g: GuildId): (prefix: Option<string>)
      reads this
      ensures prefix.Some? <==> g in info
      ensures Valid() ==> (prefix.Some? <==> ToI64(g) in table)
      ensures Valid() && prefix.Some? ==> prefix.value == table[ToI64(g)]
    {
      if g in info then Some(info[g].prefix) else None
    }

    /** `get_guilds` (lines 118-120): the guilds the cache knows. */
    function GetGuilds(): (guilds: set<GuildId>)
      reads this
      ensures forall g: GuildId :: g in guilds <==> GetPrefix(g).Some?
      ensures Valid() ==> forall g: GuildId :: g in guilds <==> ToI64(g) in table
    {
      info.Keys
    }

    /** `write_info` (lines 91-111): inserts the row, then caches it. An insert for a guild
        that already has a row violates the unique `guild_id`. */
    method WriteInfo(g: GuildId, prefix: string, fault: Option<SqlxError>) returns (r: Result<GuildInfoStruct, SqlxError>)
      modifies this
      ensures old(Valid()) ==> Valid()
      ensures fault.Some? ==> r == Err(fault.value)
      ensures fault.None? && ToI64(g) in old(table) ==> r == Err(UniqueViolation)
      ensures fault.None? && ToI64(g) !in old(table) ==> r == Ok(GuildInfoStruct(ToI64(g), prefix))
      ensures r.Ok? ==> info == old(info)[g := r.value] && table == old(table)[ToI64(g) := prefix]
      ensures r.Err? ==> info == old(info) && table == old(table)
    {
      if fault.Some? {
        return Err(fault.value);
      }
      var id := ToI64(g);
      if id in table {
        return Err(UniqueViolation);
      }
      table := table[id := prefix];
      var data := GuildInfoStruct(id, prefix);
      if old(Valid()) {
        CacheStaysInStep(old(info), old(table), g, prefix);
      }
      info := info[g := data];
      return Ok(data);
    }

    /** `add_guild` (lines 113-116): writes the default prefix. */
    method AddGuild(g: GuildId, fault: Option<SqlxError>) returns (r: Result<GuildInfoStruct, SqlxError>)
      modifies this
      ensures old(Valid()) ==> Valid()
      ensures fault.Some? ==> r == Err(fault.value)
      ensures fault.None? && ToI64(g) in old(table) ==> r == Err(UniqueViolation)
      ensures fault.None? && ToI64(g) !in old(table) ==> r.Ok?
      ensures r.Ok? ==> GetPrefix(g) == Some(defaultPrefix) && info == old(info)[g := r.value]
      ensures r.Ok? ==> table == old(table)[ToI64(g) := defaultPrefix]
      ensures r.Err? ==> info == old(info) && table == old(table)
    {
      r := WriteInfo(g, defaultPrefix, fault);
    }

    /** `set_prefix` (lines 67-89): updates the row if there is one and caches what the update
        returns; otherwise writes a new row. */
    method SetPrefix(g: GuildId, prefix: string, updateFault: Option<SqlxError>, insertFault: Option<SqlxError>)
      returns (r: Result<(), SqlxError>)
      modifies this
      ensures old(Valid()) ==> Valid()
      ensures updateFault.Some? ==> r == Err(updateFault.value)
      ensures updateFault.None? && (ToI64(g) in old(table) || insertFault.None?) ==> r.Ok?
      ensures updateFault.None? && ToI64(g) !in old(table) && insertFault.Some? ==> r == Err(insertFault.value)
      ensures r.Ok? ==> GetPrefix(g) == Some(prefix) && info == old(info)[g := GuildInfoStruct(ToI64(g), prefix)]
      ensures r.Ok? ==> table == old(table)[ToI64(g) := prefix]
      ensures r.Err? ==> info == old(info) && table == old(table)
    {
      if updateFault.Some? {
        return Err(updateFault.value);
      }
      var id := ToI64(g);
      if id in table {
        // UPDATE .. RETURNING yields the updated row.
        table := table[id := prefix];
        var row := GuildInfoStruct(id, prefix);
        if old(Valid()) {
          CacheStaysInStep(old(info), old(table), g, prefix);
        }
        info := info[g := row];
      } else {
        var written := WriteInfo(g, prefix, insertFault);
        if written.Err? {
          return Err(written.error);
        }
      }
      return Ok(());
    }

    /** `remove_guild` (lines 122-133): deletes the row; if none was deleted, reports it and
        leaves the cache alone, otherwise drops the guild from the cache. */
    method RemoveGuild(g: GuildId, fault: Option<SqlxError>) returns (r: Result<(), DatabaseError>)
      modifies this
      ensures old(Valid()) ==> Valid()
      ensures fault.Some? ==> r == Err(SqlxError(fault.value))
      ensures fault.None? && ToI64(g) !in old(table) ==> r == Err(NothingDeleted)
      ensures fault.None? && ToI64(g) in old(table) ==> r == Ok(())
      ensures r.Ok? ==> info == old(info) - {g} && table == old(table) - {ToI64(g)}
      ensures r.Err? ==> info == old(info) && table == old(table)
    {
      if fault.Some? {
        return Err(SqlxError(fault.value));
      }
      var id := ToI64(g);
      var rowsAffected := if id in table then 1 else 0;
      table := table - {id};
      if rowsAffected == 0 {
        return Err(NothingDeleted);
      }
      if old(Valid()) {
        CacheStaysInStepOnRemoval(old(info), old(table), g);
      }
      info := info - {g};
      return Ok(());
    }
  }

  /** `GuildInfoTable::new` (lines 40-47): reads the whole table, or fails with the read's error. */
  method New(defaultPrefix: string, table: map<i64, string>, fault: Option<SqlxError>)
    returns (r: Result<GuildInfoTable, SqlxError>)
    ensures fault.Some? ==> r == Err(fault.value)
    ensures fault.None? ==>
      (r.Ok? && fresh(r.value) && r.value.Valid() && r.value.defaultPrefix == defaultPrefix && r.value.table == table)
  {
    if fault.Some? {
      return Err(fault.value);
    }
    var t := new GuildInfoTable(defaultPrefix, table);
    return Ok(t);
  }

  // ----- properties -----------------------------------------------------------------------------

  /** The two readings of a guild id invert each other, so distinct guilds have distinct rows. */
  lemma IdConversionRoundTrip(g: GuildId, x: i64)
    ensures ToU64(ToI64(g)) == g
    ensures ToI64(ToU64(x)) == x
  {
  }

  /** Only one cache mirrors a table. */
  lemma MirrorIsUnique(info: map<GuildId, GuildInfoStruct>, other: map<GuildId, GuildInfoStruct>, table: map<i64, string>)
    requires Mirrors(info, table) && Mirrors(other, table)
    ensures info == other
  {
  }

  /** Writing a row and caching it keeps the cache equal to the table's rows. */
  lemma CacheStaysInStep(info: map<GuildId, GuildInfoStruct>, table: map<i64, string>, g: GuildId, prefix: string)
    requires Mirrors(info, table)
    ensures Mirrors(info[g := GuildInfoStruct(ToI64(g), prefix)], table[ToI64(g) := prefix])
  {
  }

  /** Deleting a row and dropping it from the cache keeps the cache equal to the table's rows. */
  lemma CacheStaysInStepOnRemoval(info: map<GuildId, GuildInfoStruct>, table: map<i64, string>, g: GuildId)
    requires Mirrors(info, table)
    ensures Mirrors(info - {g}, table - {ToI64(g)})
  {
  }
}
