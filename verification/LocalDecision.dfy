/** What the gate decides from its own tables, row by row: which rows count, in which order, at
    which time, and what the decision names. */
module LocalDecision {
  import opened Basics
  import opened Roster

  // ---- the normal form of a plate ----

  predicate PlateChar(c: char) {
    'A' <= c <= 'Z' || '0' <= c <= '9'
  }

  predicate LowerLetter(c: char) {
    'a' <= c <= 'z'
  }

  lemma NormOne(c: char)
    ensures PlateChar(c) ==> NormPlate([c]) == [c]
    ensures LowerLetter(c) ==> NormPlate([c]) == [(c as int - 32) as char]
    ensures !PlateChar(c) && !LowerLetter(c) ==> NormPlate([c]) == []
  {
    assert [c][1..] == [] && NormPlate([]) == [];
  }

  lemma NormFirst(c: char, rest: string)
    ensures NormPlate([c] + rest) == NormPlate([c]) + NormPlate(rest)
  {
    NormOne(c);
    assert ([c] + rest)[1..] == rest;
  }

  lemma {:induction false} NormAppend(a: string, b: string)
    ensures NormPlate(a + b) == NormPlate(a) + NormPlate(b)
  {
    if a == [] {
      assert a + b == b;
    } else {
      NormAppend(a[1..], b);
      NormFirst(a[0], a[1..]);
      NormFirst(a[0], a[1..] + b);
      assert a == [a[0]] + a[1..] && a + b == [a[0]] + (a[1..] + b);
      Associate(NormPlate([a[0]]), NormPlate(a[1..]), NormPlate(b));
    }
  }

  /** Anything but letters and digits may be put in anywhere, and case does not matter. */
  lemma NormIgnores(a: string, c: char, b: string)
    ensures !PlateChar(c) && !LowerLetter(c) ==> NormPlate(a + [c] + b) == NormPlate(a + b)
    ensures LowerLetter(c) ==> NormPlate(a + [c] + b) == NormPlate(a + [(c as int - 32) as char] + b)
  {
    var upper := if LowerLetter(c) then (c as int - 32) as char else c;
    NormAppend(a + [c], b);
    NormAppend(a, [c]);
    NormAppend(a, b);
    NormAppend(a + [upper], b);
    NormAppend(a, [upper]);
    NormOne(c);
    NormOne(upper);
    assert NormPlate(a) + [] == NormPlate(a);
  }

  /** Upper-case letters and digits stand for themselves. */
  lemma {:induction false} NormKeeps(p: string)
    requires forall i :: 0 <= i < |p| ==> PlateChar(p[i])
    ensures NormPlate(p) == p
  {
    if p != [] {
      NormKeeps(p[1..]);
      assert p == [p[0]] + p[1..];
    }
  }

  // ---- first rows ----

  predicate VehicleAt(rows: seq<VehicleRow>, m: Method, value: string, i: nat) {
    && i < |rows|
    && Some(value) == match m
                      case Anpr => rows[i].plate
                      case Fastag => rows[i].fastag
                      case Rfid => rows[i].rfid
  }

  /** Row `i` is the first whose column holds the value. */
  predicate FirstVehicle(rows: seq<VehicleRow>, m: Method, value: string, i: nat) {
    VehicleAt(rows, m, value, i) && forall j: nat :: j < i ==> !VehicleAt(rows, m, value, j)
  }

  predicate FirstPass(rows: seq<PassRow>, value: string, i: nat) {
    i < |rows| && rows[i].plate == Some(value) && forall j :: 0 <= j < i ==> rows[j].plate != Some(value)
  }

  predicate FirstCard(rows: seq<CardRow>, value: string, i: nat) {
    i < |rows| && rows[i].uid == Some(value) && forall j :: 0 <= j < i ==> rows[j].uid != Some(value)
  }

  lemma {:induction false} FindsFirstVehicle(rows: seq<VehicleRow>, m: Method, value: string) returns (i: nat)
    ensures if FindVehicle(rows, m, value).Some? then
              FirstVehicle(rows, m, value, i) && rows[i] == FindVehicle(rows, m, value).value
            else forall j: nat :: !VehicleAt(rows, m, value, j)
  {
    i := 0;
    if rows != [] && !VehicleAt(rows, m, value, 0) {
      i := FindsFirstVehicle(rows[1..], m, value);
      forall j: nat | 1 <= j < |rows| ensures VehicleAt(rows, m, value, j) <==> VehicleAt(rows[1..], m, value, j - 1) {
        assert rows[j] == rows[1..][j - 1];
      }
      i := i + 1;
    }
  }

  lemma {:induction false} FindsFirstPass(rows: seq<PassRow>, value: string) returns (i: nat)
    ensures if FindPass(rows, value).Some? then FirstPass(rows, value, i) && rows[i] == FindPass(rows, value).value
            else forall j :: 0 <= j < |rows| ==> rows[j].plate != Some(value)
  {
    i := 0;
    if rows != [] && rows[0].plate != Some(value) {
      i := FindsFirstPass(rows[1..], value);
      i := i + 1;
      assert forall j :: 1 <= j < |rows| ==> rows[j] == rows[1..][j - 1];
    }
  }

  // ---- plates ----

  predicate ListedPlate(db: Db, v: string) {
    exists i :: 0 <= i < |db.blacklist| && db.blacklist[i].plate == Some(v)
  }

  predicate ListedTag(db: Db, m: Method, v: string) {
    exists i :: 0 <= i < |db.blacklist| &&
      (if m == Fastag then db.blacklist[i].fastag else db.blacklist[i].rfid) == Some(v)
  }

  /** A pass that has begun and has not run out. */
  predicate Running(p: PassRow, now: Time) {
    (p.validFrom == None || p.validFrom.value <= now) && (p.expiresAt == None || now < p.expiresAt.value)
  }

  ghost predicate ResidentPlate(db: Db, n: string) {
    exists i: nat :: VehicleAt(db.whitelist, Anpr, n, i)
  }

  ghost predicate RunningPass(db: Db, n: string, now: Time) {
    exists i: nat :: FirstPass(db.passes, n, i) && Running(db.passes[i], now)
  }

  /** The plate opens the gate by the local tables alone. */
  ghost predicate WelcomePlate(db: Db, v: string, now: Time) {
    !ListedPlate(db, v) && (ResidentPlate(db, NormPlate(v)) || RunningPass(db, NormPlate(v), now))
  }

  lemma ListedIsBlacklisted(db: Db, v: string, m: Method)
    ensures IsBlacklisted(db, m, v) <==> if m == Anpr then ListedPlate(db, v) else ListedTag(db, m, v)
  {
    if IsBlacklisted(db, m, v) {
      var i :| 0 <= i < |db.blacklist| && BlockColumn(db.blacklist[i], m) == Some(v);
      assert m == Anpr ==> db.blacklist[i].plate == Some(v);
    }
    if m == Anpr && ListedPlate(db, v) {
      var i :| 0 <= i < |db.blacklist| && db.blacklist[i].plate == Some(v);
      assert BlockColumn(db.blacklist[i], m) == Some(v);
    }
    if m != Anpr && ListedTag(db, m, v) {
      var i :| 0 <= i < |db.blacklist| &&
               (if m == Fastag then db.blacklist[i].fastag else db.blacklist[i].rfid) == Some(v);
      assert BlockColumn(db.blacklist[i], m) == Some(v);
    }
  }

  /** The decision on a plate: denied exactly if listed as it is spelled; otherwise allowed exactly if
      its normal form is a resident's, whose first row names the unit, or else if the first pass for
      it is running, as a visitor of that pass's unit; otherwise a matter for the guard. */
  lemma PlateDecision(db: Db, v: string, now: Time) returns (i: nat)
    ensures var n, d := NormPlate(v), LocalCheck(db, Anpr, v, now);
            && (d.Deny? <==> ListedPlate(db, v))
            && (d.Allow? <==> WelcomePlate(db, v, now))
            && (d.Allow? ==>
                 if ResidentPlate(db, n) then
                   FirstVehicle(db.whitelist, Anpr, n, i) && d.match_ == Match(ResidentVehicle, db.whitelist[i].unit)
                 else
                   FirstPass(db.passes, n, i) && d.match_ == Match(VisitorPass, db.passes[i].unit))
  {
    var n := NormPlate(v);
    ListedIsBlacklisted(db, v, Anpr);
    i := FindsFirstVehicle(db.whitelist, Anpr, n);
    if FindVehicle(db.whitelist, Anpr, n).None? {
      i := FindsFirstPass(db.passes, n);
    }
  }

  // ---- tags ----

  ghost predicate WelcomeTag(db: Db, m: Method, v: string, now: Time) {
    && !ListedTag(db, m, v)
    && ((exists i: nat :: VehicleAt(db.whitelist, m, v, i)) || RunningCard(db, v, now))
  }

  ghost predicate RunningCard(db: Db, v: string, now: Time) {
    exists i: nat :: FirstCard(db.cards, v, i) && (db.cards[i].expiresAt == None || now < db.cards[i].expiresAt.value)
  }

  lemma FindsFirstCard(rows: seq<CardRow>, value: string) returns (i: nat)
    ensures if FindCard(rows, value).Some? then FirstCard(rows, value, i) && rows[i] == FindCard(rows, value).value
            else forall j :: 0 <= j < |rows| ==> rows[j].uid != Some(value)
  {
    i := FindCardMeans(rows, value);
  }

  /** The decision on a tag: denied exactly if listed; otherwise allowed exactly if a vehicle carries
      it, whose first row names the unit, or else if the first card row for it has not expired. */
  lemma TagDecision(db: Db, m: Method, v: string, now: Time) returns (i: nat)
    requires m != Anpr
    ensures var d := LocalCheck(db, m, v, now);
            && (d.Deny? <==> ListedTag(db, m, v))
            && (d.Allow? <==> WelcomeTag(db, m, v, now))
            && (d.Allow? ==>
                 if exists j: nat :: VehicleAt(db.whitelist, m, v, j) then
                   FirstVehicle(db.whitelist, m, v, i) && d.match_ == Match(Resident, db.whitelist[i].unit)
                 else
                   FirstCard(db.cards, v, i) && d.match_ == Match(RfidCard, db.cards[i].unit))
  {
    ListedIsBlacklisted(db, v, m);
    i := FindsFirstVehicle(db.whitelist, m, v);
    if FindVehicle(db.whitelist, m, v).None? {
      i := FindsFirstCard(db.cards, v);
    }
  }

  /** Which reader a card is booked under and for which unit: the first vehicle with that tag, else
      the first with that uid, else the first card row, else none. */
  lemma ClassifiedByFirst(db: Db, card: string) returns (i: nat)
    ensures var found := ClassifyCard(db, card);
            if exists j: nat :: VehicleAt(db.whitelist, Fastag, card, j) then
              FirstVehicle(db.whitelist, Fastag, card, i) && found == Some((Fastag, db.whitelist[i].unit))
            else if exists j: nat :: VehicleAt(db.whitelist, Rfid, card, j) then
              FirstVehicle(db.whitelist, Rfid, card, i) && found == Some((Rfid, db.whitelist[i].unit))
            else if exists j :: 0 <= j < |db.cards| && db.cards[j].uid == Some(card) then
              FirstCard(db.cards, card, i) && found == Some((Rfid, db.cards[i].unit))
            else found == None
  {
    i := FindsFirstVehicle(db.whitelist, Fastag, card);
    if FindVehicle(db.whitelist, Fastag, card).None? {
      i := FindsFirstVehicle(db.whitelist, Rfid, card);
      if FindVehicle(db.whitelist, Rfid, card).None? {
        i := FindsFirstCard(db.cards, card);
      }
    }
  }
}
