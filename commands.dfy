/**
 * The decision logic of the slash commands that touch the time_channels
 * table: settime, removetime, listtime and forceupdatetime, with the owner
 * check. Replies are datatypes standing for the message the bot sends.
 */
module Commands {
  import opened Wrappers
  import opened Catalog
  import opened Formatter
  import opened Registry
  import opened Reconcile

  /** isOwner: exact membership of the user id in OWNER_IDS. */
  function IsOwner(owners: seq<UserId>, userId: UserId): (r: bool)
    ensures r <==> exists i :: 0 <= i < |owners| && owners[i] == userId
  {
    userId in owners
  }

  datatype SetTimeReply =
    | InvalidZone(key: string)
    | AlreadyConfigured(zone: Zone)
    | Configured(zone: Zone, newName: Option<string>)
    | RenameFailed(code: int)

  /**
   * settime: rejects a key outside the catalog and a key the channel is
   * already bound to; otherwise upserts the row and then attempts the rename,
   * whose outcome `renamed` is given. A failed rename keeps the new row.
   */
  method SetTime(table: Table, catalog: seq<Entry>, channelId: ChannelId, guildId: GuildId, userId: UserId,
                 key: string, clock: Clock, renamed: Renamed) returns (reply: SetTimeReply)
    modifies table
    ensures !HasKey(catalog, key) ==> reply == InvalidZone(key) && table.rows == old(table.rows)
    ensures HasKey(catalog, key) && channelId in old(table.rows) && old(table.rows)[channelId].timezone == key ==>
      reply == AlreadyConfigured(Lookup(catalog, key).value) && table.rows == old(table.rows)
    ensures HasKey(catalog, key) && !(channelId in old(table.rows) && old(table.rows)[channelId].timezone == key) ==>
      && table.rows == old(table.rows)[channelId := Row(guildId, key, userId)]
      && reply == match renamed
                  case RenameOk => Configured(Lookup(catalog, key).value, FormattedTime(catalog, key, clock))
                  case RenameError(code) => RenameFailed(code)
    ensures table.rows != old(table.rows) ==> HasKey(catalog, key)
  {
    var tzInfo := Lookup(catalog, key);
    if tzInfo.None? {
      return InvalidZone(key);
    }
    var existing := table.GetOne(channelId);
    if existing.Some? && existing.value.timezone == key {
      return AlreadyConfigured(tzInfo.value);
    }
    table.Insert(channelId, guildId, key, userId);
    var newName := FormattedTime(catalog, key, clock);
    match renamed {
      case RenameOk => reply := Configured(tzInfo.value, newName);
      case RenameError(code) => reply := RenameFailed(code);
    }
  }

  /** Binding the same channel twice with different catalog keys leaves only the second binding. */
  method BindTwiceKeepsSecond(catalog: seq<Entry>, channelId: ChannelId, guildId: GuildId,
                              first: string, second: string, firstUser: UserId, secondUser: UserId,
                              clock: Clock, renamed: Renamed) returns (found: Option<Row>)
    requires HasKey(catalog, first) && HasKey(catalog, second) && first != second
    ensures found == Some(Row(guildId, second, secondUser))
  {
    var table := new Table();
    var reply1 := SetTime(table, catalog, channelId, guildId, firstUser, first, clock, renamed);
    var reply2 := SetTime(table, catalog, channelId, guildId, secondUser, second, clock, renamed);
    found := table.GetOne(channelId);
  }

  datatype RemoveTimeReply = Removed | NotConfigured

  /** removetime: deletes the channel's row when getOne finds one, and says which case it was. */
  method RemoveTime(table: Table, channelId: ChannelId) returns (reply: RemoveTimeReply)
    modifies table
    ensures reply == Removed <==> channelId in old(table.rows)
    ensures table.rows == old(table.rows) - {channelId}
  {
    var existing := table.GetOne(channelId);
    if existing.Some? {
      table.Delete(channelId);
      reply := Removed;
    } else {
      reply := NotConfigured;
    }
  }

  const ListHeader := "📋 **Salons configurés:**\n\n"
  const EmptyListing := "📋 Aucun salon configuré sur ce serveur."

  /** One line of the listtime reply: the channel mention and its zone, or a warning for an unknown key. */
  function ListLine(catalog: seq<Entry>, b: Binding): string {
    match Lookup(catalog, b.row.timezone)
    case Some(z) => "• <#" + b.channelId + "> → " + z.emoji + " " + z.name + " (" + z.utc + ")\n"
    case None => "• <#" + b.channelId + "> → ⚠️ Zone inconnue: " + b.row.timezone + "\n"
  }

  /** A row whose key is not in the catalog is listed with the "unknown zone" warning and the key. */
  lemma UnknownKeyListedAsUnknown(catalog: seq<Entry>, b: Binding)
    requires !HasKey(catalog, b.row.timezone)
    ensures ListLine(catalog, b) == "• <#" + b.channelId + "> → ⚠️ Zone inconnue: " + b.row.timezone + "\n"
  {
  }

  /**
   * The listtime line as written: `TIMEZONES[data.timezone]` also finds the
   * names inherited from Object.prototype, whose `emoji` and `utc` are undefined.
   */
  function ListLineAsWritten(catalog: seq<Entry>, b: Binding): string {
    if Lookup(catalog, b.row.timezone).None? && b.row.timezone in InheritedNames then
      "• <#" + b.channelId + "> → undefined " + InheritedName(b.row.timezone) + " (undefined)\n"
    else
      ListLine(catalog, b)
  }

  /** As written, a row holding "constructor" is listed as the zone "Object" instead of as unknown. */
  lemma ConstructorListedAsObject(catalog: seq<Entry>, b: Binding)
    requires b.row.timezone == "constructor" && !HasKey(catalog, "constructor")
    ensures ListLineAsWritten(catalog, b) == "• <#" + b.channelId + "> → undefined " + "Object" + " (undefined)\n"
    ensures ListLine(catalog, b) != ListLineAsWritten(catalog, b)
  {
    var asWritten := ListLineAsWritten(catalog, b);
    var corrected := ListLine(catalog, b);
    var at := |"• <#" + b.channelId + "> → "|;
    assert asWritten[at] == 'u';
    assert corrected[at] == '⚠';
  }

  function Concat(parts: seq<string>): string
    decreases |parts|
  {
    if parts == [] then "" else Concat(parts[..|parts| - 1]) + parts[|parts| - 1]
  }

  lemma {:induction false} ConcatAppend(a: seq<string>, b: seq<string>)
    ensures Concat(a + b) == Concat(a) + Concat(b)
    decreases |b|
  {
    if b == [] {
      assert a + b == a;
    } else {
      var b' := b[..|b| - 1];
      assert (a + b)[..|a + b| - 1] == a + b';
      assert (a + b)[|a + b| - 1] == b[|b| - 1];
      ConcatAppend(a, b');
      AppendAssociates(Concat(a), Concat(b'), b[|b| - 1]);
    }
  }

  /** The lines of the listtime reply, one per row, in the order getByGuild returned the rows. */
  function Lines(catalog: seq<Entry>, s: seq<Binding>): seq<string> {
    seq(|s|, i requires 0 <= i < |s| => ListLine(catalog, s[i]))
  }

  /** The listtime reply for the guild's rows `s`. */
  function Listing(catalog: seq<Entry>, s: seq<Binding>): string {
    if s == [] then EmptyListing else ListHeader + Concat(Lines(catalog, s))
  }

  /** Each part of a concatenation occurs in it. */
  lemma ConcatShowsPart(parts: seq<string>, i: nat)
    requires i < |parts|
    ensures OccursAt(Concat(parts), parts[i], |Concat(parts[..i])|)
  {
    var part := parts[i];
    assert parts == parts[..i] + [part] + parts[i + 1..];
    ConcatAppend(parts[..i] + [part], parts[i + 1..]);
    ConcatAppend(parts[..i], [part]);
    assert Concat([part]) == part by {
      assert [part][..0] == [];
    }
    var text := Concat(parts);
    var at := |Concat(parts[..i])|;
    assert text == Concat(parts[..i]) + part + Concat(parts[i + 1..]);
    assert text[at..at + |part|] == part;
  }

  lemma OccursAfterPrefix(prefix: string, text: string, sub: string, at: int)
    requires OccursAt(text, sub, at)
    ensures OccursAt(prefix + text, sub, |prefix| + at)
  {
    assert (prefix + text)[|prefix| + at..|prefix| + at + |sub|] == text[at..at + |sub|];
  }

  /** Every row of the guild has its own line in the listtime reply. */
  lemma ListingShowsEveryRow(catalog: seq<Entry>, s: seq<Binding>, i: nat)
    requires i < |s|
    ensures exists at :: OccursAt(Listing(catalog, s), ListLine(catalog, s[i]), at)
  {
    var lines := Lines(catalog, s);
    assert lines[i] == ListLine(catalog, s[i]);
    assert Listing(catalog, s) == ListHeader + Concat(lines);
    ConcatShowsPart(lines, i);
    OccursAfterPrefix(ListHeader, Concat(lines), lines[i], |Concat(lines[..i])|);
  }

  lemma ListingStep(catalog: seq<Entry>, s: seq<Binding>, i: nat)
    requires i < |s|
    ensures ListHeader + Concat(Lines(catalog, s[..i + 1])) == ListHeader + Concat(Lines(catalog, s[..i])) + ListLine(catalog, s[i])
  {
    var before := Lines(catalog, s[..i]);
    assert Lines(catalog, s[..i + 1]) == before + [ListLine(catalog, s[i])];
    ConcatAppend(before, [ListLine(catalog, s[i])]);
    assert [ListLine(catalog, s[i])][..0] == [];
    AppendAssociates(ListHeader, Concat(before), ListLine(catalog, s[i]));
  }

  lemma AppendAssociates(a: string, b: string, c: string)
    ensures a + (b + c) == a + b + c
  {
  }

  /** listtime: the rows of the invoking guild, one line each, or the "none configured" message. */
  method ListTime(table: Table, catalog: seq<Entry>, guildId: GuildId) returns (text: string, ghost shown: seq<Binding>)
    ensures IsSnapshot(shown, GuildRows(table.rows, guildId))
    ensures text == Listing(catalog, shown)
    ensures text == EmptyListing <==> GuildRows(table.rows, guildId) == map[]
    ensures GuildRows(table.rows, guildId) != map[] ==> StartsWith(text, ListHeader)
  {
    var guildChannels := table.GetByGuild(guildId);
    shown := guildChannels;
    if |guildChannels| == 0 {
      return EmptyListing, shown;
    }
    text := BuildListing(catalog, guildChannels);
    assert text[..|ListHeader|] == ListHeader;
    assert text[2] != EmptyListing[2];
    SnapshotSize(shown, GuildRows(table.rows, guildId));
  }

  /** The `list +=` loop of listtime over a non-empty list of rows. */
  method BuildListing(catalog: seq<Entry>, guildChannels: seq<Binding>) returns (list: string)
    requires guildChannels != []
    ensures list == Listing(catalog, guildChannels)
  {
    list := ListHeader;
    for i := 0 to |guildChannels|
      invariant list == ListHeader + Concat(Lines(catalog, guildChannels[..i]))
    {
      var data := guildChannels[i];
      var line := ListLine(catalog, data);
      ListingStep(catalog, guildChannels, i);
      list := list + line;
    }
    assert guildChannels[..|guildChannels|] == guildChannels;
  }

  datatype ForceReply = NotOwner | AllUpdated

  /** forceupdatetime: only an owner starts a pass; anyone else changes nothing. */
  method ForceUpdateTime(table: Table, owners: seq<UserId>, userId: UserId, catalog: seq<Entry>, w: World)
    returns (reply: ForceReply, report: Option<Report>)
    modifies table
    ensures !IsOwner(owners, userId) ==> reply == NotOwner && report == None && table.rows == old(table.rows)
    ensures IsOwner(owners, userId) ==>
      && reply == AllUpdated
      && report.Some?
      && table.rows == Without(old(table.rows), report.value.removed)
      && exists snapshot :: IsSnapshot(snapshot, old(table.rows)) && report.value == Pass(catalog, w, snapshot)
  {
    if !IsOwner(owners, userId) {
      return NotOwner, None;
    }
    var r, snapshot := UpdateAllChannels(table, catalog, w);
    reply, report := AllUpdated, Some(r);
  }

  /**
   * The zone check of settime as written: `TIMEZONES[pays]` is truthy for the
   * catalog's own keys and also for the names inherited from Object.prototype.
   */
  predicate AcceptedAsWritten(catalog: seq<Entry>, key: string) {
    Lookup(catalog, key).Some? || key in InheritedNames
  }

  /** The key "constructor" is not a timezone, yet passes the zone check as written. */
  lemma ConstructorPassesZoneCheck(catalog: seq<Entry>)
    requires forall i :: 0 <= i < |catalog| ==> catalog[i].key != "constructor"
    ensures AcceptedAsWritten(catalog, "constructor")
    ensures !HasKey(catalog, "constructor")
  {
    assert "constructor" in InheritedNames;
  }
}
