/**
 * Single-row reconciliation passes run against a fresh table: the stale
 * label, the label already in place, the key missing from the catalog and
 * the channel Discord no longer knows.
 */
module Scenarios {
  import opened Wrappers
  import opened Catalog
  import opened Formatter
  import opened Registry
  import opened Reconcile

  /** A table holding the one row `b`, and a pass over it. */
  method RunOnce(catalog: seq<Entry>, w: World, b: Binding) returns (report: Report, after: Option<Row>)
    ensures report == Pass(catalog, w, [b])
    ensures after == if report.removed == [] then Some(b.row) else None
  {
    var table := new Table();
    table.Insert(b.channelId, b.row.guildId, b.row.timezone, b.row.createdBy);
    assert table.rows == map[b.channelId := b.row];
    ghost var snapshot;
    report, snapshot := UpdateAllChannels(table, catalog, w);
    SingletonSnapshot(snapshot, b.channelId, b.row);
    assert [b][..0] == [];
    after := table.GetOne(b.channelId);
  }

  /** A voice channel with an outdated name is renamed to the label and counted as updated. */
  method StaleLabelIsRenamed(zone: Zone, b: Binding, current: string, time: string) returns (report: Report, after: Option<Row>)
    requires current != ClockIcon + zone.name + " " + time
    ensures report == Report(1, 0, 0, [RenameCall(b.channelId, ClockIcon + zone.name + " " + time)], [])
    ensures after == Some(b.row)
  {
    var catalog := [Entry(b.row.timezone, zone)];
    var w := World(id => Channel(GuildVoice, current), (id, name) => RenameOk, tz => Some(time));
    report, after := RunOnce(catalog, w, b);
  }

  /** A voice channel that already carries its label is skipped and not renamed. */
  method CurrentLabelIsSkipped(zone: Zone, b: Binding, time: string) returns (report: Report, after: Option<Row>)
    ensures report == Report(0, 1, 0, [], [])
    ensures after == Some(b.row)
  {
    var catalog := [Entry(b.row.timezone, zone)];
    var w := World(id => Channel(GuildVoice, ClockIcon + zone.name + " " + time), (id, name) => RenameOk, tz => Some(time));
    report, after := RunOnce(catalog, w, b);
  }

  /** A row whose key is not in the catalog counts as an error, is not renamed and stays in the table. */
  method UnknownKeyIsKept(catalog: seq<Entry>, b: Binding, current: string, clock: Clock) returns (report: Report, after: Option<Row>)
    requires !HasKey(catalog, b.row.timezone)
    ensures report == Report(0, 0, 1, [], [])
    ensures after == Some(b.row)
  {
    var w := World(id => Channel(GuildVoice, current), (id, name) => RenameOk, clock);
    report, after := RunOnce(catalog, w, b);
  }

  /** A channel Discord reports unknown (10003) counts as one error and its row is deleted. */
  method UnknownChannelIsDeleted(catalog: seq<Entry>, b: Binding, clock: Clock) returns (report: Report, after: Option<Row>)
    ensures report == Report(0, 0, 1, [], [b.channelId])
    ensures after == None
  {
    var w := World(id => FetchError(UnknownChannel), (id, name) => RenameOk, clock);
    report, after := RunOnce(catalog, w, b);
  }

  /** A pass over an empty table reports no row in any counter and deletes nothing. */
  method EmptyTableReportsNothing(catalog: seq<Entry>, w: World) returns (report: Report)
    ensures report == Report(0, 0, 0, [], [])
  {
    var table := new Table();
    ghost var snapshot;
    report, snapshot := UpdateAllChannels(table, catalog, w);
    SnapshotSize(snapshot, map[]);
  }

  /** setName refused for lack of permission or access: one error, the call was made, and the row stays. */
  method RefusedRenameIsKept(zone: Zone, b: Binding, current: string, time: string, code: int)
    returns (report: Report, after: Option<Row>)
    requires code == MissingPermissions || code == MissingAccess
    requires current != ClockIcon + zone.name + " " + time
    ensures report == Report(0, 0, 1, [RenameCall(b.channelId, ClockIcon + zone.name + " " + time)], [])
    ensures after == Some(b.row)
  {
    var catalog := [Entry(b.row.timezone, zone)];
    var w := World(id => Channel(GuildVoice, current), (id, name) => RenameError(code), tz => Some(time));
    report, after := RunOnce(catalog, w, b);
  }
}
