/** The local roster tables and the decisions taken from them. */
module Roster {
  import opened Basics

  datatype VehicleRow = VehicleRow(plate: Option<string>, rfid: Option<string>, fastag: Option<string>, unit: string)
  datatype BlockRow = BlockRow(plate: Option<string>, rfid: Option<string>, fastag: Option<string>)
  datatype CardRow = CardRow(uid: Option<string>, cardType: string, unit: string, expiresAt: Option<Time>)
  datatype PassRow = PassRow(plate: Option<string>, unit: string, validFrom: Option<Time>, expiresAt: Option<Time>)

  datatype Db = Db(whitelist: seq<VehicleRow>, blacklist: seq<BlockRow>, cards: seq<CardRow>, passes: seq<PassRow>)

  datatype Method = Anpr | Fastag | Rfid

  datatype Kind = ResidentVehicle | Resident | VisitorPass | RfidCard

  datatype Match = Match(kind: Kind, unit: string)

  datatype Decision = Deny | Allow(match_: Match) | GuardReview

  // ---- lookups ----

  /** Letters and digits only, in upper case (ASCII). */
  function NormPlate(p: string): string {
    if p == [] then []
    else
      var c := p[0];
      (if 'a' <= c <= 'z' then [(c as int - 32) as char]
       else if 'A' <= c <= 'Z' || '0' <= c <= '9' then [c] else []) + NormPlate(p[1..])
  }

  function VehicleColumn(r: VehicleRow, m: Method): Option<string> {
    match m
    case Anpr => r.plate
    case Fastag => r.fastag
    case Rfid => r.rfid
  }

  function BlockColumn(r: BlockRow, m: Method): Option<string> {
    match m
    case Anpr => r.plate
    case Fastag => r.fastag
    case Rfid => r.rfid
  }

  /** The first whitelist row whose column holds the value. */
  function FindVehicle(rows: seq<VehicleRow>, m: Method, value: string): Option<VehicleRow> {
    if rows == [] then None
    else if VehicleColumn(rows[0], m) == Some(value) then Some(rows[0])
    else FindVehicle(rows[1..], m, value)
  }

  function FindCard(rows: seq<CardRow>, value: string): Option<CardRow> {
    if rows == [] then None else if rows[0].uid == Some(value) then Some(rows[0]) else FindCard(rows[1..], value)
  }

  function FindPass(rows: seq<PassRow>, value: string): Option<PassRow> {
    if rows == [] then None else if rows[0].plate == Some(value) then Some(rows[0]) else FindPass(rows[1..], value)
  }

  predicate Unexpired(expiresAt: Option<Time>, now: Time) {
    expiresAt.None? || expiresAt.value > now
  }

  /** `load_local`: the permanent roster first, then visitor passes for plates or standalone cards
      for tags, each only inside its validity. */
  function LoadLocal(db: Db, m: Method, value: string, now: Time): Option<Match> {
    var key := if m == Anpr then NormPlate(value) else value;
    match FindVehicle(db.whitelist, m, key)
    case Some(row) => Some(Match(if m == Anpr then ResidentVehicle else Resident, row.unit))
    case None =>
      if m == Anpr then
        match FindPass(db.passes, key)
        case Some(p) =>
          if (p.validFrom.None? || p.validFrom.value <= now) && Unexpired(p.expiresAt, now)
          then Some(Match(VisitorPass, p.unit)) else None
        case None => None
      else
        match FindCard(db.cards, key)
        case Some(c) => if Unexpired(c.expiresAt, now) then Some(Match(RfidCard, c.unit)) else None
        case None => None
  }

  /** `is_blacklisted_local`: the value is compared as it is. */
  predicate IsBlacklisted(db: Db, m: Method, value: string) {
    exists i :: 0 <= i < |db.blacklist| && BlockColumn(db.blacklist[i], m) == Some(value)
  }

  /** `_local_check` */
  function LocalCheck(db: Db, m: Method, value: string, now: Time): Decision {
    if IsBlacklisted(db, m, value) then Deny
    else
      match LoadLocal(db, m, value, now)
      case Some(found) => Allow(found)
      case None => GuardReview
  }

  /** `classify_card`: which reader a card number belongs to, if any. */
  function ClassifyCard(db: Db, card: string): Option<(Method, string)> {
    match FindVehicle(db.whitelist, Fastag, card)
    case Some(row) => Some((Fastag, row.unit))
    case None =>
      match FindVehicle(db.whitelist, Rfid, card)
      case Some(row) => Some((Rfid, row.unit))
      case None =>
        match FindCard(db.cards, card)
        case Some(c) => Some((Rfid, c.unit))
        case None => None
  }

  // ---- what the lookups mean ----

  predicate Whitelisted(rows: seq<VehicleRow>, m: Method, value: string) {
    exists i :: 0 <= i < |rows| && VehicleColumn(rows[i], m) == Some(value)
  }

  lemma {:induction false} FindVehicleMeans(rows: seq<VehicleRow>, m: Method, value: string)
    ensures FindVehicle(rows, m, value).Some? <==> Whitelisted(rows, m, value)
  {
    if rows != [] {
      FindVehicleMeans(rows[1..], m, value);
      if Whitelisted(rows[1..], m, value) {
        var i :| 0 <= i < |rows| - 1 && VehicleColumn(rows[1..][i], m) == Some(value);
        assert VehicleColumn(rows[i + 1], m) == Some(value);
      }
      if Whitelisted(rows, m, value) && VehicleColumn(rows[0], m) != Some(value) {
        var i :| 0 <= i < |rows| && VehicleColumn(rows[i], m) == Some(value);
        assert VehicleColumn(rows[1..][i - 1], m) == Some(value);
      }
    }
  }

  /** The first row for a card stands at some place with no earlier row for it. */
  lemma {:induction false} FindCardMeans(rows: seq<CardRow>, value: string) returns (i: nat)
    ensures if FindCard(rows, value).Some? then
              && i < |rows| && rows[i] == FindCard(rows, value).value && rows[i].uid == Some(value)
              && (forall j :: 0 <= j < i ==> rows[j].uid != Some(value))
            else forall j :: 0 <= j < |rows| ==> rows[j].uid != Some(value)
  {
    i := 0;
    if rows != [] && rows[0].uid != Some(value) {
      i := FindCardMeans(rows[1..], value);
      i := i + 1;
      assert forall j :: 1 <= j < |rows| ==> rows[j] == rows[1..][j - 1];
    }
  }
}
