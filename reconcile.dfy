/**
 * updateAllChannels: one reconciliation pass over a snapshot of the
 * time_channels table. The Discord calls are the `World` the pass runs in:
 * what `client.channels.fetch` yields or throws for each channel, what
 * `channel.setName` throws or not for each (channel, name), and the clock.
 */
module Reconcile {
  import opened Wrappers
  import opened Catalog
  import opened Formatter
  import opened Registry

  /** discord.js ChannelType.GuildVoice. */
  const GuildVoice: int := 2
  /** Discord API error codes the pass tells apart. */
  const UnknownChannel: int := 10003
  const MissingAccess: int := 50001
  const MissingPermissions: int := 50013

  /** What `client.channels.fetch(id)` does: resolves to null, to a channel, or throws. */
  datatype Fetched = NoChannel | Channel(kind: int, name: string) | FetchError(code: int)

  /** What `channel.setName(name)` does: resolves, or throws. */
  datatype Renamed = RenameOk | RenameError(code: int)

  datatype World = World(fetch: ChannelId -> Fetched, rename: (ChannelId, string) -> Renamed, clock: Clock)

  /** Which counter a row increments. */
  datatype Tally = Updated | Skipped | Failed

  /** The outcome of one row: its counter, the setName call it issued, and whether it deletes the row. */
  datatype Step = Step(tally: Tally, renameTo: Option<string>, drop: bool)

  datatype RenameCall = RenameCall(channelId: ChannelId, name: string)

  /** The pass's counters, its setName calls in order, and the rows it deleted in order. */
  datatype Report = Report(updated: nat, skipped: nat, errors: nat, renames: seq<RenameCall>, removed: seq<ChannelId>)

  /** The row's channel is a voice channel whose name differs from a label that could be computed. */
  predicate NeedsRename(catalog: seq<Entry>, w: World, b: Binding, newName: string) {
    && w.fetch(b.channelId).Channel?
    && w.fetch(b.channelId).kind == GuildVoice
    && FormattedTime(catalog, b.row.timezone, w.clock) == Some(newName)
    && w.fetch(b.channelId).name != newName
  }

  /** Fetch or setName threw with code 10003 (Unknown Channel). */
  predicate ThrowsUnknownChannel(catalog: seq<Entry>, w: World, b: Binding) {
    || w.fetch(b.channelId) == FetchError(UnknownChannel)
    || (var newName := FormattedTime(catalog, b.row.timezone, w.clock);
        && newName.Some?
        && NeedsRename(catalog, w, b, newName.value)
        && w.rename(b.channelId, newName.value) == RenameError(UnknownChannel))
  }

  /** The body of the for loop for one row. */
  function ProcessRow(catalog: seq<Entry>, w: World, b: Binding): Step {
    match w.fetch(b.channelId)
    case NoChannel => Step(Failed, None, false)
    case FetchError(code) => Step(Failed, None, code == UnknownChannel)
    case Channel(kind, name) =>
      if kind != GuildVoice then Step(Skipped, None, false)
      else
        match FormattedTime(catalog, b.row.timezone, w.clock)
        case None => Step(Failed, None, false)
        case Some(newName) =>
          if name == newName then Step(Skipped, None, false)
          else
            match w.rename(b.channelId, newName)
            case RenameOk => Step(Updated, Some(newName), false)
            case RenameError(code) => Step(Failed, Some(newName), code == UnknownChannel)
  }

  /**
   * How a row is classified: it is deleted exactly when Unknown Channel was
   * thrown, and then counts as an error; setName is called exactly when the
   * voice channel's name differs from the computed label; the row counts as
   * updated exactly when that call succeeded.
   */
  lemma ProcessRowClassifies(catalog: seq<Entry>, w: World, b: Binding)
    ensures var st := ProcessRow(catalog, w, b);
      && (st.drop <==> ThrowsUnknownChannel(catalog, w, b))
      && (st.drop ==> st.tally == Failed)
      && (forall newName :: NeedsRename(catalog, w, b, newName) <==> st.renameTo == Some(newName))
      && (st.tally == Updated <==> st.renameTo.Some? && w.rename(b.channelId, st.renameTo.value) == RenameOk)
  {
  }

  const NoRows := Report(0, 0, 0, [], [])

  /** Adds one row's outcome to the report. */
  function Tick(r: Report, b: Binding, st: Step): Report {
    Report(
      r.updated + (if st.tally == Updated then 1 else 0),
      r.skipped + (if st.tally == Skipped then 1 else 0),
      r.errors + (if st.tally == Failed then 1 else 0),
      r.renames + (if st.renameTo.Some? then [RenameCall(b.channelId, st.renameTo.value)] else []),
      r.removed + (if st.drop then [b.channelId] else []))
  }

  /** The report of a pass over the snapshot `s`, row by row in snapshot order. */
  function Pass(catalog: seq<Entry>, w: World, s: seq<Binding>): Report
    decreases |s|
  {
    if s == [] then NoRows
    else Tick(Pass(catalog, w, s[..|s| - 1]), s[|s| - 1], ProcessRow(catalog, w, s[|s| - 1]))
  }

  /** Every row of the snapshot increments exactly one of the three counters. */
  lemma {:induction false} PassCountsEveryRow(catalog: seq<Entry>, w: World, s: seq<Binding>)
    ensures var r := Pass(catalog, w, s); r.updated + r.skipped + r.errors == |s|
    ensures var r := Pass(catalog, w, s); r.updated <= |r.renames|
  {
    if s != [] {
      PassCountsEveryRow(catalog, w, s[..|s| - 1]);
    }
  }

  /** A row is deleted if and only if its fetch or rename threw Unknown Channel. */
  lemma {:induction false} PassRemovesOnlyUnknownChannels(catalog: seq<Entry>, w: World, s: seq<Binding>)
    ensures forall id :: id in Pass(catalog, w, s).removed <==>
      exists i :: 0 <= i < |s| && s[i].channelId == id && ThrowsUnknownChannel(catalog, w, s[i])
  {
    if s != [] {
      var init := s[..|s| - 1];
      var last := s[|s| - 1];
      PassRemovesOnlyUnknownChannels(catalog, w, init);
      ProcessRowClassifies(catalog, w, last);
      var removed := Pass(catalog, w, init).removed + (if ProcessRow(catalog, w, last).drop then [last.channelId] else []);
      assert Pass(catalog, w, s).removed == removed;
      forall id ensures id in Pass(catalog, w, s).removed <==>
        exists i :: 0 <= i < |s| && s[i].channelId == id && ThrowsUnknownChannel(catalog, w, s[i])
      {
        if exists i :: 0 <= i < |s| && s[i].channelId == id && ThrowsUnknownChannel(catalog, w, s[i]) {
          var i :| 0 <= i < |s| && s[i].channelId == id && ThrowsUnknownChannel(catalog, w, s[i]);
          if i < |s| - 1 { assert init[i] == s[i]; }
        }
        if id in Pass(catalog, w, init).removed {
          var i :| 0 <= i < |init| && init[i].channelId == id && ThrowsUnknownChannel(catalog, w, init[i]);
          assert s[i] == init[i];
        }
      }
    }
  }

  /**
   * setName is called exactly for the rows that need it, with the computed
   * label: a voice channel whose current name differs from that label.
   */
  lemma {:induction false} PassRenamesExactlyWhenNeeded(catalog: seq<Entry>, w: World, s: seq<Binding>)
    ensures forall c :: c in Pass(catalog, w, s).renames ==>
      exists i :: 0 <= i < |s| && s[i].channelId == c.channelId && NeedsRename(catalog, w, s[i], c.name)
    ensures forall i, newName :: 0 <= i < |s| && NeedsRename(catalog, w, s[i], newName) ==>
      RenameCall(s[i].channelId, newName) in Pass(catalog, w, s).renames
  {
    if s != [] {
      var init := s[..|s| - 1];
      var last := s[|s| - 1];
      PassRenamesExactlyWhenNeeded(catalog, w, init);
      var r := Pass(catalog, w, s);
      forall c | c in r.renames
        ensures exists i :: 0 <= i < |s| && s[i].channelId == c.channelId && NeedsRename(catalog, w, s[i], c.name)
      {
        if c in Pass(catalog, w, init).renames {
          var i :| 0 <= i < |init| && init[i].channelId == c.channelId && NeedsRename(catalog, w, init[i], c.name);
          assert s[i] == init[i];
        } else {
          assert c == RenameCall(last.channelId, ProcessRow(catalog, w, last).renameTo.value);
        }
      }
      forall i, newName | 0 <= i < |s| && NeedsRename(catalog, w, s[i], newName)
        ensures RenameCall(s[i].channelId, newName) in r.renames
      {
        if i < |s| - 1 {
          assert init[i] == s[i];
        } else {
          assert ProcessRow(catalog, w, last).renameTo == Some(newName);
        }
      }
    }
  }

  /** Every row's channel is a voice channel already carrying its computed label. */
  predicate Settled(catalog: seq<Entry>, w: World, b: Binding) {
    && w.fetch(b.channelId).Channel?
    && w.fetch(b.channelId).kind == GuildVoice
    && FormattedTime(catalog, b.row.timezone, w.clock) == Some(w.fetch(b.channelId).name)
  }

  /** When every channel already shows its label, the pass renames nothing and skips every row. */
  lemma {:induction false} SettledPassIsQuiet(catalog: seq<Entry>, w: World, s: seq<Binding>)
    requires forall i :: 0 <= i < |s| ==> Settled(catalog, w, s[i])
    ensures Pass(catalog, w, s) == Report(0, |s|, 0, [], [])
  {
    if s != [] {
      SettledPassIsQuiet(catalog, w, s[..|s| - 1]);
    }
  }

  /** The name a successful setName call in `calls` last gave the channel, if any. */
  function LastRename(w: World, calls: seq<RenameCall>, id: ChannelId): Option<string>
    decreases |calls|
  {
    if calls == [] then None
    else
      var c := calls[|calls| - 1];
      if c.channelId == id && w.rename(c.channelId, c.name) == RenameOk then Some(c.name)
      else LastRename(w, calls[..|calls| - 1], id)
  }

  /** The world after a pass: the renamed channels carry their new names, nothing else changed. */
  function AfterPass(w: World, r: Report): World {
    World(
      id => match w.fetch(id)
            case Channel(kind, name) =>
              (match LastRename(w, r.renames, id)
               case Some(newName) => Channel(kind, newName)
               case None => Channel(kind, name))
            case other => other,
      w.rename,
      w.clock)
  }

  /** Successful calls for other channels do not matter to `id`. */
  lemma {:induction false} LastRenameAbsent(w: World, calls: seq<RenameCall>, id: ChannelId)
    requires forall k :: 0 <= k < |calls| ==> calls[k].channelId != id
    ensures LastRename(w, calls, id) == None
  {
    if calls != [] {
      LastRenameAbsent(w, calls[..|calls| - 1], id);
    }
  }

  lemma LastRenameSnoc(w: World, calls: seq<RenameCall>, c: RenameCall, id: ChannelId)
    ensures LastRename(w, calls + [c], id) ==
      if c.channelId == id && w.rename(c.channelId, c.name) == RenameOk then Some(c.name) else LastRename(w, calls, id)
  {
    assert (calls + [c])[..|calls|] == calls;
  }

  /** In a snapshot without repeated channels, a channel was renamed iff its row counted as updated. */
  lemma {:induction false} LastRenameOfPass(catalog: seq<Entry>, w: World, s: seq<Binding>, i: nat)
    requires DistinctChannels(s) && i < |s|
    ensures var st := ProcessRow(catalog, w, s[i]);
      LastRename(w, Pass(catalog, w, s).renames, s[i].channelId) == if st.tally == Updated then st.renameTo else None
  {
    var init := s[..|s| - 1];
    var last := s[|s| - 1];
    var id := s[i].channelId;
    var st := ProcessRow(catalog, w, last);
    var before := Pass(catalog, w, init).renames;
    var calls := if st.renameTo.Some? then before + [RenameCall(last.channelId, st.renameTo.value)] else before;
    assert Pass(catalog, w, s).renames == calls;
    if st.renameTo.Some? {
      LastRenameSnoc(w, before, RenameCall(last.channelId, st.renameTo.value), id);
    }
    ProcessRowClassifies(catalog, w, last);
    if i == |s| - 1 {
      PassRenamesExactlyWhenNeeded(catalog, w, init);
      forall k | 0 <= k < |before| ensures before[k].channelId != id {
        assert before[k] in before;
        var j :| 0 <= j < |init| && init[j].channelId == before[k].channelId && NeedsRename(catalog, w, init[j], before[k].name);
        assert init[j] == s[j];
      }
      LastRenameAbsent(w, before, id);
    } else {
      assert init[i] == s[i];
      assert last.channelId != id;
      LastRenameOfPass(catalog, w, init, i);
    }
  }

  /** A row of the first pass is never counted as updated again by the next pass. */
  lemma SecondPassRowNotUpdated(catalog: seq<Entry>, w: World, s: seq<Binding>, i: nat)
    requires DistinctChannels(s) && i < |s|
    ensures ProcessRow(catalog, AfterPass(w, Pass(catalog, w, s)), s[i]).tally != Updated
  {
    LastRenameOfPass(catalog, w, s, i);
    ProcessRowClassifies(catalog, w, s[i]);
  }

  /**
   * Running the pass again in the world it left behind (same clock, same
   * Discord answers, renamed channels now carrying their new names) over any
   * rows of the first snapshot updates nothing.
   */
  lemma {:induction false} SecondPassUpdatesNothing(catalog: seq<Entry>, w: World, s: seq<Binding>, again: seq<Binding>)
    requires DistinctChannels(s)
    requires forall k :: 0 <= k < |again| ==> again[k] in s
    ensures Pass(catalog, AfterPass(w, Pass(catalog, w, s)), again).updated == 0
  {
    if again != [] {
      SecondPassUpdatesNothing(catalog, w, s, again[..|again| - 1]);
      var i :| 0 <= i < |s| && s[i] == again[|again| - 1];
      SecondPassRowNotUpdated(catalog, w, s, i);
    }
  }

  /** Extending the snapshot prefix by one row ticks the report once. */
  lemma PassStep(catalog: seq<Entry>, w: World, s: seq<Binding>, i: nat)
    requires i < |s|
    ensures Pass(catalog, w, s[..i + 1]) == Tick(Pass(catalog, w, s[..i]), s[i], ProcessRow(catalog, w, s[i]))
  {
    assert s[..i + 1][..i] == s[..i];
  }

  /** The table after deleting, one after the other, the rows of the channels in `removed`. */
  function Without(rows: map<ChannelId, Row>, removed: seq<ChannelId>): map<ChannelId, Row>
    decreases |removed|
  {
    if removed == [] then rows else Without(rows, removed[..|removed| - 1]) - {removed[|removed| - 1]}
  }

  /** Deleting the listed rows one by one removes exactly those channels and changes no other row. */
  lemma {:induction false} WithoutRemovesListed(rows: map<ChannelId, Row>, removed: seq<ChannelId>)
    ensures Without(rows, removed) == rows - (set id | id in removed)
  {
    if removed != [] {
      var init := removed[..|removed| - 1];
      WithoutRemovesListed(rows, init);
      assert (set id | id in removed) == (set id | id in init) + {removed[|removed| - 1]} by {
        assert removed == init + [removed[|removed| - 1]];
      }
    }
  }

  /**
   * One iteration of the loop of updateAllChannels: fetch, classify, maybe
   * rename, and delete the row when Discord reports the channel unknown.
   */
  method ProcessChannel(table: Table, catalog: seq<Entry>, w: World, data: Binding) returns (st: Step)
    modifies table
    ensures st == ProcessRow(catalog, w, data)
    ensures table.rows == if st.drop then old(table.rows) - {data.channelId} else old(table.rows)
  {
    match w.fetch(data.channelId) {
      case NoChannel =>
        st := Step(Failed, None, false);
      case FetchError(code) =>
        st := Step(Failed, None, code == UnknownChannel);
      case Channel(kind, name) =>
        if kind != GuildVoice {
          st := Step(Skipped, None, false);
        } else {
          var newName := FormattedTime(catalog, data.row.timezone, w.clock);
          if newName.None? {
            st := Step(Failed, None, false);
          } else if name == newName.value {
            st := Step(Skipped, None, false);
          } else {
            match w.rename(data.channelId, newName.value) {
              case RenameOk =>
                st := Step(Updated, newName, false);
              case RenameError(code) =>
                st := Step(Failed, newName, code == UnknownChannel);
            }
          }
        }
    }
    if st.drop {
      table.Delete(data.channelId);
    }
  }

  /**
   * updateAllChannels: snapshots the table with getAll, returns at once when it
   * is empty, and otherwise runs the loop over the snapshot.
   */
  method UpdateAllChannels(table: Table, catalog: seq<Entry>, w: World) returns (report: Report, ghost snapshot: seq<Binding>)
    modifies table
    ensures IsSnapshot(snapshot, old(table.rows))
    ensures report == Pass(catalog, w, snapshot)
    ensures table.rows == Without(old(table.rows), report.removed)
  {
    var channels := table.GetAll();
    snapshot := channels;
    if |channels| == 0 {
      report := NoRows;
      return;
    }
    report := ProcessSnapshot(table, catalog, w, channels);
  }

  /**
   * The `for (const data of channels)` loop: each row in turn increments one
   * counter, and a row whose channel Discord reports unknown is deleted in place.
   */
  method ProcessSnapshot(table: Table, catalog: seq<Entry>, w: World, channels: seq<Binding>) returns (report: Report)
    modifies table
    ensures report == Pass(catalog, w, channels)
    ensures table.rows == Without(old(table.rows), report.removed)
  {
    var updated, skipped, errors := 0, 0, 0;
    var renames: seq<RenameCall> := [];
    var removed: seq<ChannelId> := [];
    ghost var acc := NoRows;
    for i := 0 to |channels|
      invariant acc == Pass(catalog, w, channels[..i])
      invariant Report(updated, skipped, errors, renames, removed) == acc
      invariant table.rows == Without(old(table.rows), removed)
    {
      var data := channels[i];
      var st := ProcessChannel(table, catalog, w, data);
      PassStep(catalog, w, channels, i);
      if st.tally == Updated {
        updated := updated + 1;
      } else if st.tally == Skipped {
        skipped := skipped + 1;
      } else {
        errors := errors + 1;
      }
      if st.renameTo.Some? {
        renames := renames + [RenameCall(data.channelId, st.renameTo.value)];
      }
      if st.drop {
        removed := removed + [data.channelId];
        assert removed[..|removed| - 1] == acc.removed;
      }
      acc := Tick(acc, data, st);
    }
    assert channels[..|channels|] == channels;
    report := Report(updated, skipped, errors, renames, removed);
  }
}
