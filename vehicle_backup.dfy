/** The per-vehicle record that is appended to a vehicle's file, and its one-line CSV form. */
module VehicleBackupRecord {
  import opened Wrappers

  /** A backend entity identifier. It is opaque: the model only compares identifiers for equality. */
  type Id = nat

  /** A DateTime instant, as a tick count. */
  type DateTime = int

  /** The properties of a VehicleBackup. Every property that C# declares nullable is an Option.
      There is no name property. */
  datatype VehicleBackup = VehicleBackup(
    id: Option<Id>,
    vin: Option<string>,
    latitude: Option<real>,
    longitude: Option<real>,
    odometer: Option<real>,
    timestamp: Option<DateTime>)

  /** How string interpolation renders a non-null Id, double and DateTime. These renderings depend on
      the culture, so the model takes them as parameters. */
  datatype Formats = Formats(id: Id -> string, number: real -> string, dateTime: DateTime -> string)

  /** A record as its property initialisers leave it: Vin is the empty string, Timestamp the clock
      reading `now`, and everything else null. */
  function NewVehicleBackup(now: DateTime): (v: VehicleBackup)
    ensures v.vin == Some("")
    ensures v.id.None? && v.latitude.None? && v.longitude.None? && v.odometer.None?
    ensures v.timestamp == Some(now)
    ensures forall f :: ToCsv(v, f) == ",,,,, " + f.dateTime(now)
  {
    VehicleBackup(None, Some(""), None, None, None, Some(now))
  }

  /** Interpolating a string inserts it unchanged. */
  function Verbatim(s: string): string {
    s
  }

  /** Interpolating a nullable value: null becomes the empty text. */
  function Text<T>(v: Option<T>, render: T -> string): string {
    match v
    case None => ""
    case Some(x) => render(x)
  }

  /** The interpolated line `{Id},{Vin},{Latitude},{Longitude},{Odometer}, {Timestamp}`: six
      renderings and six separator characters; it starts with the Id and a comma and ends with a
      comma, a space and the Timestamp. */
  function ToCsv(v: VehicleBackup, f: Formats): (line: string)
    ensures var id, ts := Text(v.id, f.id), Text(v.timestamp, f.dateTime);
      && |line| == |id| + |Text(v.vin, Verbatim)| + |Text(v.latitude, f.number)|
                   + |Text(v.longitude, f.number)| + |Text(v.odometer, f.number)| + |ts| + 6
      && line[..|id|] == id && line[|id|] == ','
      && line[|line| - |ts| - 2..] == ", " + ts
  {
    Text(v.id, f.id) + "," + Text(v.vin, Verbatim) + "," + Text(v.latitude, f.number) + ","
    + Text(v.longitude, f.number) + "," + Text(v.odometer, f.number) + ", " + Text(v.timestamp, f.dateTime)
  }

  /** Cuts a line at every comma, as a CSV reader does. */
  function SplitAtCommas(s: string): (parts: seq<string>)
    ensures |parts| >= 1
  {
    if s == [] then [""]
    else
      var rest := SplitAtCommas(s[1..]);
      if s[0] == ',' then [""] + rest else [[s[0]] + rest[0]] + rest[1..]
  }

  /** The number of commas in a text. */
  function CommaCount(s: string): nat {
    if s == [] then 0 else (if s[0] == ',' then 1 else 0) + CommaCount(s[1..])
  }

  lemma {:induction false} SplitWithoutComma(a: string)
    requires ',' !in a
    ensures SplitAtCommas(a) == [a]
  {
    if a != [] {
      SplitWithoutComma(a[1..]);
      assert [a[0]] + a[1..] == a;
    }
  }

  lemma {:induction false} SplitAfterField(a: string, b: string)
    requires ',' !in a
    ensures SplitAtCommas(a + "," + b) == [a] + SplitAtCommas(b)
  {
    if a == [] {
      assert a + "," + b == [','] + b;
      assert ([','] + b)[1..] == b;
    } else {
      var s := a + "," + b;
      assert s[0] == a[0];
      assert s[1..] == a[1..] + "," + b;
      SplitAfterField(a[1..], b);
      assert [a[0]] + a[1..] == a;
    }
  }

  lemma {:induction false} CommaCountConcat(a: string, b: string)
    ensures CommaCount(a + b) == CommaCount(a) + CommaCount(b)
  {
    if a != [] {
      assert (a + b)[0] == a[0];
      assert (a + b)[1..] == a[1..] + b;
      CommaCountConcat(a[1..], b);
    } else {
      assert a + b == b;
    }
  }

  lemma {:induction false} CommaFree(a: string)
    requires ',' !in a
    ensures CommaCount(a) == 0
  {
    if a != [] {
      CommaFree(a[1..]);
    }
  }

  /** Splitting the line shape `a,b,c,d,e, t` built from comma-free parts gives the parts back. */
  lemma {:induction false} SplitLine(a: string, b: string, c: string, d: string, e: string, t: string)
    requires ',' !in a && ',' !in b && ',' !in c && ',' !in d && ',' !in e && ',' !in t
    ensures SplitAtCommas(a + "," + b + "," + c + "," + d + "," + e + ", " + t) == [a, b, c, d, e, " " + t]
  {
    var last := " " + t;
    assert ',' !in last;
    var t4 := e + "," + last;
    var t3 := d + "," + t4;
    var t2 := c + "," + t3;
    var t1 := b + "," + t2;
    assert a + "," + b + "," + c + "," + d + "," + e + ", " + t == a + "," + t1;
    SplitWithoutComma(last);
    SplitAfterField(e, last);
    SplitAfterField(d, t4);
    SplitAfterField(c, t3);
    SplitAfterField(b, t2);
    SplitAfterField(a, t1);
  }

  /** When no rendered property contains a comma, a CSV reader gets back exactly six fields: the
      rendered Id, Vin, Latitude, Longitude and Odometer, then the rendered Timestamp behind the one
      space that follows the last comma. Nothing else (in particular no name) is in the line. */
  lemma {:induction false} CsvHasSixFields(v: VehicleBackup, f: Formats)
    requires ',' !in Text(v.id, f.id) && ',' !in Text(v.vin, Verbatim)
    requires ',' !in Text(v.latitude, f.number) && ',' !in Text(v.longitude, f.number)
    requires ',' !in Text(v.odometer, f.number) && ',' !in Text(v.timestamp, f.dateTime)
    ensures SplitAtCommas(ToCsv(v, f)) ==
      [Text(v.id, f.id), Text(v.vin, Verbatim), Text(v.latitude, f.number),
       Text(v.longitude, f.number), Text(v.odometer, f.number), " " + Text(v.timestamp, f.dateTime)]
  {
    SplitLine(Text(v.id, f.id), Text(v.vin, Verbatim), Text(v.latitude, f.number),
              Text(v.longitude, f.number), Text(v.odometer, f.number), Text(v.timestamp, f.dateTime));
  }

  /** The line holds exactly five separator commas besides those inside the rendered properties,
      so exactly five when no property renders with a comma. */
  lemma {:induction false} CsvCommaCount(v: VehicleBackup, f: Formats)
    ensures CommaCount(ToCsv(v, f)) ==
      5 + CommaCount(Text(v.id, f.id)) + CommaCount(Text(v.vin, Verbatim))
        + CommaCount(Text(v.latitude, f.number)) + CommaCount(Text(v.longitude, f.number))
        + CommaCount(Text(v.odometer, f.number)) + CommaCount(Text(v.timestamp, f.dateTime))
    ensures (',' !in Text(v.id, f.id) && ',' !in Text(v.vin, Verbatim)
             && ',' !in Text(v.latitude, f.number) && ',' !in Text(v.longitude, f.number)
             && ',' !in Text(v.odometer, f.number) && ',' !in Text(v.timestamp, f.dateTime))
            ==> CommaCount(ToCsv(v, f)) == 5
  {
    var id, vin, lat, lon, odo := Text(v.id, f.id), Text(v.vin, Verbatim), Text(v.latitude, f.number),
                                  Text(v.longitude, f.number), Text(v.odometer, f.number);
    var ts := Text(v.timestamp, f.dateTime);
    assert ToCsv(v, f) == id + "," + vin + "," + lat + "," + lon + "," + odo + ", " + ts;
    assert CommaCount(",") == 1;
    assert CommaCount(", ") == 1 by {
      assert CommaCount(", "[1..]) == 0;
    }
    CommaCountConcat(id, ",");
    CommaCountConcat(id + ",", vin);
    CommaCountConcat(id + "," + vin, ",");
    CommaCountConcat(id + "," + vin + ",", lat);
    CommaCountConcat(id + "," + vin + "," + lat, ",");
    CommaCountConcat(id + "," + vin + "," + lat + ",", lon);
    CommaCountConcat(id + "," + vin + "," + lat + "," + lon, ",");
    CommaCountConcat(id + "," + vin + "," + lat + "," + lon + ",", odo);
    CommaCountConcat(id + "," + vin + "," + lat + "," + lon + "," + odo, ", ");
    CommaCountConcat(id + "," + vin + "," + lat + "," + lon + "," + odo + ", ", ts);
    if ',' !in id && ',' !in vin && ',' !in lat && ',' !in lon && ',' !in odo && ',' !in ts {
      CommaFree(id); CommaFree(vin); CommaFree(lat); CommaFree(lon); CommaFree(odo); CommaFree(ts);
    }
  }

  /** A record whose nullable properties are all null renders them as empty fields: only the
      timestamp shows. */
  lemma {:induction false} NullFieldsRenderEmpty(v: VehicleBackup, f: Formats)
    requires v.id.None? && v.vin.None? && v.latitude.None? && v.longitude.None? && v.odometer.None?
    ensures ToCsv(v, f) == ",,,,, " + Text(v.timestamp, f.dateTime)
  {
  }
}
