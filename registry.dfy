/**
 * The time_channels table and its five prepared statements. The table is a
 * map keyed by its primary key channel_id, so it holds at most one row per
 * channel.
 */
module Registry {
  import opened Wrappers

  type ChannelId = string
  type GuildId = string
  type UserId = string

  /** The non-key columns the bot writes: guild_id, timezone (a catalog key, unchecked here) and created_by. */
  datatype Row = Row(guildId: GuildId, timezone: string, createdBy: UserId)

  /** A row as a SELECT returns it, with its channel_id. */
  datatype Binding = Binding(channelId: ChannelId, row: Row)

  predicate DistinctChannels(s: seq<Binding>) {
    forall i, j :: 0 <= i < j < |s| ==> s[i].channelId != s[j].channelId
  }

  /** `s` lists every row of `rows` exactly once, in some order (SELECT promises none). */
  ghost predicate IsSnapshot(s: seq<Binding>, rows: map<ChannelId, Row>) {
    && (forall i :: 0 <= i < |s| ==> s[i].channelId in rows && rows[s[i].channelId] == s[i].row)
    && DistinctChannels(s)
    && (forall id :: id in rows ==> exists i :: 0 <= i < |s| && s[i].channelId == id)
  }

  /** The rows `WHERE guild_id = ?` selects. */
  function GuildRows(rows: map<ChannelId, Row>, guildId: GuildId): map<ChannelId, Row> {
    map id | id in rows && rows[id].guildId == guildId :: rows[id]
  }

  function ChannelIds(s: seq<Binding>): set<ChannelId> {
    set i | 0 <= i < |s| :: s[i].channelId
  }

  /** A sequence without repeated channels has as many elements as channel ids. */
  lemma {:induction false} DistinctChannelCount(s: seq<Binding>)
    requires DistinctChannels(s)
    ensures |ChannelIds(s)| == |s|
  {
    if s != [] {
      var init := s[..|s| - 1];
      DistinctChannelCount(init);
      assert ChannelIds(s) == ChannelIds(init) + {s[|s| - 1].channelId} by {
        forall id | id in ChannelIds(s) ensures id in ChannelIds(init) + {s[|s| - 1].channelId} {
          var i :| 0 <= i < |s| && s[i].channelId == id;
          if i < |s| - 1 { assert init[i] == s[i]; }
        }
      }
      assert s[|s| - 1].channelId !in ChannelIds(init);
    }
  }

  /** A snapshot has exactly one element per row of the table. */
  lemma SnapshotSize(s: seq<Binding>, rows: map<ChannelId, Row>)
    requires IsSnapshot(s, rows)
    ensures |s| == |rows|
  {
    assert ChannelIds(s) == rows.Keys;
    DistinctChannelCount(s);
  }

  /** A snapshot of a one-row table is that row. */
  lemma SingletonSnapshot(s: seq<Binding>, channelId: ChannelId, row: Row)
    requires IsSnapshot(s, map[channelId := row])
    ensures s == [Binding(channelId, row)]
  {
    SnapshotSize(s, map[channelId := row]);
  }

  class Table {
    var rows: map<ChannelId, Row>

    /** CREATE TABLE IF NOT EXISTS on a fresh database. */
    constructor ()
      ensures rows == map[]
    {
      rows := map[];
    }

    /** `insert`: INSERT OR REPLACE, a whole-row upsert keyed by channel_id. */
    method Insert(channelId: ChannelId, guildId: GuildId, timezone: string, createdBy: UserId)
      modifies this
      ensures rows == old(rows)[channelId := Row(guildId, timezone, createdBy)]
    {
      rows := rows[channelId := Row(guildId, timezone, createdBy)];
    }

    /** `delete`: removes the row of that channel; a missing row is no error. */
    method Delete(channelId: ChannelId)
      modifies this
      ensures rows == old(rows) - {channelId}
      ensures channelId !in old(rows) ==> rows == old(rows)
    {
      rows := rows - {channelId};
    }

    /** `getOne`: the row of one channel, or nothing. */
    method GetOne(channelId: ChannelId) returns (found: Option<Row>)
      ensures found.Some? <==> channelId in rows
      ensures found.Some? ==> found.value == rows[channelId]
    {
      found := if channelId in rows then Some(rows[channelId]) else None;
    }

    /** `getAll`: every row once, in an unspecified order. */
    method GetAll() returns (all: seq<Binding>)
      ensures IsSnapshot(all, rows)
    {
      all := [];
      var left := rows.Keys;
      while left != {}
        invariant left <= rows.Keys
        invariant forall i :: 0 <= i < |all| ==> all[i].channelId in rows.Keys - left && rows[all[i].channelId] == all[i].row
        invariant DistinctChannels(all)
        invariant forall id :: id in rows.Keys - left ==> exists i :: 0 <= i < |all| && all[i].channelId == id
        decreases left
      {
        var id :| id in left;
        ghost var before, leftBefore := all, left;
        all := all + [Binding(id, rows[id])];
        left := left - {id};
        forall x | x in rows.Keys - left ensures exists i :: 0 <= i < |all| && all[i].channelId == x {
          if x == id {
            assert all[|all| - 1].channelId == x;
          } else {
            assert x in rows.Keys - leftBefore;
            var i :| 0 <= i < |before| && before[i].channelId == x;
            assert all[i].channelId == x;
          }
        }
      }
      assert rows.Keys - left == rows.Keys;
    }

    /** `getByGuild`: every row of one guild once, in an unspecified order. */
    method GetByGuild(guildId: GuildId) returns (found: seq<Binding>)
      ensures IsSnapshot(found, GuildRows(rows, guildId))
    {
      var all := GetAll();
      found := KeepGuild(all, guildId);
      ghost var g := GuildRows(rows, guildId);
      forall id | id in g ensures exists k :: 0 <= k < |found| && found[k].channelId == id {
        var i :| 0 <= i < |all| && all[i].channelId == id;
        assert all[i] in found;
      }
    }
  }

  /** The rows of `all` that belong to `guildId`, in their order. */
  method KeepGuild(all: seq<Binding>, guildId: GuildId) returns (found: seq<Binding>)
    requires DistinctChannels(all)
    ensures forall k :: 0 <= k < |found| ==> found[k] in all && found[k].row.guildId == guildId
    ensures DistinctChannels(found)
    ensures forall k :: 0 <= k < |all| && all[k].row.guildId == guildId ==> all[k] in found
  {
    found := [];
    for i := 0 to |all|
      invariant forall k :: 0 <= k < |found| ==> found[k] in all[..i] && found[k].row.guildId == guildId
      invariant DistinctChannels(found)
      invariant forall k :: 0 <= k < i && all[k].row.guildId == guildId ==> all[k] in found
    {
      if all[i].row.guildId == guildId {
        assert forall k :: 0 <= k < |found| ==> found[k].channelId != all[i].channelId;
        found := found + [all[i]];
      }
    }
    assert forall k :: 0 <= k < |all| ==> all[k] in all[..|all|];
  }

  /**
   * Two inserts for the same channel: the second replaces the whole row (no
   * merge of columns) and the table still holds a single row.
   */
  method UpsertReplacesWholeRow(channelId: ChannelId, first: Row, second: Row) returns (found: Option<Row>, count: nat)
    ensures found == Some(second)
    ensures count == 1
  {
    var table := new Table();
    table.Insert(channelId, first.guildId, first.timezone, first.createdBy);
    table.Insert(channelId, second.guildId, second.timezone, second.createdBy);
    found := table.GetOne(channelId);
    var all := table.GetAll();
    SnapshotSize(all, table.rows);
    count := |all|;
  }

  /** Deleting a channel that has no row leaves the table as it was. */
  method DeleteAbsentIsNoop(kept: Binding, absent: ChannelId) returns (all: seq<Binding>)
    requires absent != kept.channelId
    ensures all == [kept]
  {
    var table := new Table();
    table.Insert(kept.channelId, kept.row.guildId, kept.row.timezone, kept.row.createdBy);
    table.Delete(absent);
    all := table.GetAll();
    SnapshotSize(all, table.rows);
  }
}
