/** Why the store can supply what an export asks for: the objects a session pinned stay where they were. */
module BackupSupply {
  import opened Digests
  import opened AssetModel
  import opened AssetInvariant
  import opened AssetProtection
  import Listing = BackupCatalog
  import Copying = BackupExport

  /** Every listed row is an active object of the catalog, under the spelling of its hash and with its size. */
  ghost predicate ListsActive(spell: Hash -> string, c: Catalog, rows: seq<Listing.Row>) {
    forall row | row in rows ::
      exists h | ActiveRow(c, h) :: row.hash == spell(h) && row.size == c.objects[h].size
  }

  /** What the store can hand out now. */
  ghost predicate Serves(spell: Hash -> string, d: Disk, assets: map<string, Content>) {
    forall h | Own(h) in d.objects :: spell(h) in assets && assets[spell(h)] == d.objects[Own(h)].content
  }

  ghost predicate IsPinning(h: History, sid: SessionId) {
    h.Then? && h.event.OfBackup? && h.event.backup.PinSnapshot? && h.event.backup.sid == sid
  }

  /**
   From the pinning until the release, whatever else the store does, every row of the snapshot can be
   supplied with its hash and size, provided the files were in place when the session pinned them.
  */
  lemma PinnedSnapshotIsSupplied(
    reserved: set<string>, earlier: History, later: History, sid: SessionId,
    spell: Hash -> string, rows: seq<Listing.Row>, assets: map<string, Content>)
    requires Legal(earlier) && Legal(later) && Disciplined(reserved, later) && TablesOk(Origin(later))
    requires IsPinning(earlier, sid) && PinsHeld(sid, earlier, later)
    requires forall h | ActiveRow(earlier.past.world.catalog, h) ::
      GoodFile(earlier.past.world.disk, h, earlier.past.world.catalog.objects[h].size)
    requires ListsActive(spell, earlier.past.world.catalog, rows) && Serves(spell, later.world.disk, assets)
    ensures Copying.Supplies(Copying.Snapshot(rows, content => spell(Sha256(content))), assets)
  {
    hide Legal, Disciplined, TablesOk, PinsHeld;
    var c := earlier.past.world.catalog;
    var snap := Copying.Snapshot(rows, content => spell(Sha256(content)));
    forall row | row in rows ensures row.hash in assets && Copying.Good(snap, assets[row.hash], row) {
      var h :| ActiveRow(c, h) && row.hash == spell(h) && row.size == c.objects[h].size;
      PinnedObjectsStay(reserved, earlier, later, sid, h);
    }
  }
}
