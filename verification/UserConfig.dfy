/** The user configuration: typed getters and setters over a key/value table. */
module UserConfig {
  import opened Helpers
  import opened Text

  // ----- numbers as text ------------------------------------------------------

  function FormatNat(n: nat): (s: string)
    ensures s != [] && Digits(s)
  {
    if n < 10 then [DigitChar(n)] else FormatNat(n / 10) + [DigitChar(n % 10)]
  }

  /** `strconv.FormatInt(n, 10)` */
  function FormatInt(n: int): string {
    if n < 0 then "-" + FormatNat(-n) else FormatNat(n)
  }

  function Value(s: string): nat
    requires Digits(s)
  {
    if s == [] then 0 else 10 * Value(s[..|s| - 1]) + DigitValue(s[|s| - 1])
  }

  /** Signed integers of `bits` bits. */
  predicate Fits(n: int, bits: nat) {
    if bits == 32 then -0x8000_0000 <= n < 0x8000_0000 else -0x8000_0000_0000_0000 <= n < 0x8000_0000_0000_0000
  }

  function Unsigned(s: string): string {
    if s != [] && (s[0] == '-' || s[0] == '+') then s[1..] else s
  }

  /** `strconv.ParseInt(s, 10, bits)`; `None` is an error. */
  function ParseInt(s: string, bits: nat): Option<int> {
    var digits := Unsigned(s);
    if digits == [] || !Digits(digits) then None
    else
      var n: int := if s[0] == '-' then -(Value(digits) as int) else Value(digits);
      if Fits(n, bits) then Some(n) else None
  }

  lemma UnsignedDigits(s: string)
    requires s != [] && Digits(s)
    ensures s[0] != '-' && Unsigned(s) == s
    ensures Unsigned("-" + s) == s
  {
    assert IsDigit(s[0]);
    assert ("-" + s)[0] == '-' && ("-" + s)[1..] == s;
  }

  lemma {:induction false} ValueOfFormat(n: nat)
    ensures Value(FormatNat(n)) == n
  {
    if n >= 10 {
      ValueOfFormat(n / 10);
      var s := FormatNat(n);
      assert s[..|s| - 1] == FormatNat(n / 10);
    }
  }

  /** What is written is read back, unless it does not fit. */
  lemma ParseOfFormat(n: int, bits: nat)
    ensures ParseInt(FormatInt(n), bits) == if Fits(n, bits) then Some(n) else None
  {
    var m: nat := if n < 0 then -n else n;
    ValueOfFormat(m);
    UnsignedDigits(FormatNat(m));
    assert ("-" + FormatNat(m))[0] == '-';
  }

  // ----- the table ------------------------------------------------------------

  type Table = map<string, string>

  function GetOrNilString(t: Table, key: string): Option<string> {
    if key in t then Some(t[key]) else None
  }

  function FromBool(b: bool): string {
    if b then "true" else "false"
  }

  function GetBool(t: Table, key: string, default: bool): bool {
    (if key in t then t[key] else FromBool(default)) == "true"
  }

  function GetOrNilInt(t: Table, key: string): Option<int> {
    if key in t then ParseInt(t[key], 64) else None
  }

  function GetOrDefaultInt(t: Table, key: string, default: int): int {
    var v := GetOrNilInt(t, key);
    if v == None then default else v.value
  }

  /** Named for 64 bits in the source, but parsed with 32. */
  function GetOrNilInt64(t: Table, key: string): Option<int> {
    if key in t then ParseInt(t[key], 32) else None
  }

  // ----- keys -----------------------------------------------------------------

  const IPV4_ENABLED := "platform.ipv4_enabled"
  const IPV4_PUBLIC := "platform.ipv4_public"
  const IPV6_ENABLED := "platform.ipv6_enabled"
  const RELAY_ENABLED := "platform.relay_enabled"
  const REDIRECT_ENABLED := "platform.redirect_enabled"
  const PUBLIC_IP := "platform.public_ip"
  const PUBLIC_PORT := "platform.manual_access_port"
  const BACKUP_AUTO := "platform.backup_auto"
  const BACKUP_AUTO_DAY := "platform.backup_auto_day"
  const BACKUP_AUTO_HOUR := "platform.backup_auto_hour"

  function AppTimeKey(app: string, mode: string): string {
    "platform.backup." + app + "." + mode
  }

  predicate IsMode(mode: string) {
    mode == "backup" || mode == "restore"
  }

  lemma LastOf(p: string, c: string)
    requires c != []
    ensures (p + c)[|p + c| - 1] == c[|c| - 1]
  {
  }

  lemma SameMiddle(p: string, a: string, b: string, q: string)
    requires p + a + q == p + b + q
    ensures a == b
  {
    assert |a| == |b|;
    assert a == (p + a + q)[|p|..|p| + |a|] && b == (p + b + q)[|p|..|p| + |a|];
  }

  /** Application names may contain anything, dots included. */
  lemma AppTimeKeysDiffer(app: string, mode: string, app': string, mode': string)
    requires IsMode(mode) && IsMode(mode')
    ensures AppTimeKey(app, mode) == AppTimeKey(app', mode') <==> app == app' && mode == mode'
    ensures AppTimeKey(app, mode) !in {BACKUP_AUTO, BACKUP_AUTO_DAY, BACKUP_AUTO_HOUR}
  {
    var a, b := AppTimeKey(app, mode), AppTimeKey(app', mode');
    LastOf("platform.backup." + app + ".", mode);
    LastOf("platform.backup." + app' + ".", mode');
    assert a[15] == '.';
    if a == b {
      assert mode == mode';
      assert a == "platform.backup." + app + ("." + mode) && b == "platform.backup." + app' + ("." + mode);
      SameMiddle("platform.backup.", app, app', "." + mode);
    }
  }

  // ----- getters --------------------------------------------------------------

  function IsRelayEnabled(t: Table): bool { GetBool(t, RELAY_ENABLED, false) }

  function IsRedirectEnabled(t: Table): bool { GetBool(t, REDIRECT_ENABLED, false) }

  function IsIpv4Enabled(t: Table): bool { GetBool(t, IPV4_ENABLED, true) }

  function IsIpv4Public(t: Table): bool { GetBool(t, IPV4_PUBLIC, true) }

  function IsIpv6Enabled(t: Table): bool { GetBool(t, IPV6_ENABLED, true) }

  function GetPublicIp(t: Table): Option<string> { GetOrNilString(t, PUBLIC_IP) }

  function GetPublicPort(t: Table): Option<int> { GetOrNilInt(t, PUBLIC_PORT) }

  function GetBackupAuto(t: Table): string {
    if BACKUP_AUTO in t then t[BACKUP_AUTO] else "no"
  }

  function GetBackupAutoDay(t: Table): int { GetOrDefaultInt(t, BACKUP_AUTO_DAY, 0) }

  function GetBackupAutoHour(t: Table): int { GetOrDefaultInt(t, BACKUP_AUTO_HOUR, 0) }

  /** `None` is the zero time. */
  function GetBackupAppTime(t: Table, app: string, mode: string): Option<int> {
    GetOrNilInt64(t, AppTimeKey(app, mode))
  }

  /** What holds before anything is set. */
  lemma Defaults()
    ensures var t: Table := map[];
            && !IsRelayEnabled(t) && !IsRedirectEnabled(t) && IsIpv4Enabled(t) && IsIpv4Public(t) && IsIpv6Enabled(t)
            && GetPublicIp(t) == None && GetPublicPort(t) == None
            && GetBackupAuto(t) == "no" && GetBackupAutoDay(t) == 0 && GetBackupAutoHour(t) == 0
            && forall app, mode :: GetBackupAppTime(t, app, mode) == None
  {
    assert "false"[0] == 'f' && "true"[0] == 't';
  }

  // ----- setters --------------------------------------------------------------

  function Stored(t: Table, key: string, value: Option<string>): Table {
    if value == None then t - {key} else t[key := value.value]
  }

  /** Any other value is silently ignored. */
  function WithBackupAuto(t: Table, auto: string): Table {
    if auto in {"no", "backup", "restore"} then t[BACKUP_AUTO := auto] else t
  }

  function WithBackupAutoDay(t: Table, day: int): Table {
    t[BACKUP_AUTO_DAY := FormatInt(day)]
  }

  function WithBackupAutoHour(t: Table, hour: int): Table {
    t[BACKUP_AUTO_HOUR := FormatInt(hour)]
  }

  function WithBackupAppTime(t: Table, app: string, mode: string, time: int): Table {
    t[AppTimeKey(app, mode) := FormatInt(time)]
  }

  class UserConfig {
    var db: Table

    constructor (db: Table)
      ensures this.db == db
    {
      this.db := db;
    }

    method Upsert(key: string, value: string)
      modifies this
      ensures db == old(db)[key := value]
    {
      db := db[key := value];
    }

    method Delete(key: string)
      modifies this
      ensures db == old(db) - {key}
    {
      db := db - {key};
    }

    method SetBool(key: string, value: bool)
      modifies this
      ensures db == old(db)[key := FromBool(value)] && forall default :: GetBool(db, key, default) == value
    {
      Upsert(key, FromBool(value));
    }

    method SetPublicIp(ip: Option<string>)
      modifies this
      ensures db == Stored(old(db), PUBLIC_IP, ip) && GetPublicIp(db) == ip
    {
      if ip == None {
        Delete(PUBLIC_IP);
      } else {
        Upsert(PUBLIC_IP, ip.value);
      }
    }

    method SetPublicPort(port: Option<int>)
      modifies this
      ensures db == Stored(old(db), PUBLIC_PORT, if port == None then None else Some(FormatInt(port.value)))
      ensures port == None || Fits(port.value, 64) ==> GetPublicPort(db) == port
    {
      if port == None {
        Delete(PUBLIC_PORT);
      } else {
        ParseOfFormat(port.value, 64);
        Upsert(PUBLIC_PORT, FormatInt(port.value));
      }
    }

    method SetBackupAuto(auto: string)
      modifies this
      ensures db == WithBackupAuto(old(db), auto)
    {
      if auto == "no" || auto == "backup" || auto == "restore" {
        Upsert(BACKUP_AUTO, auto);
      }
    }

    method SetBackupAutoDay(day: int)
      modifies this
      ensures db == WithBackupAutoDay(old(db), day)
    {
      Upsert(BACKUP_AUTO_DAY, FormatInt(day));
    }

    method SetBackupAutoHour(hour: int)
      modifies this
      ensures db == WithBackupAutoHour(old(db), hour)
    {
      Upsert(BACKUP_AUTO_HOUR, FormatInt(hour));
    }

    method SetBackupAppTime(app: string, mode: string, time: int)
      modifies this
      ensures db == WithBackupAppTime(old(db), app, mode, time)
      ensures GetBackupAppTime(db, app, mode) == if Fits(time, 32) then Some(time) else None
    {
      ParseOfFormat(time, 32);
      Upsert(AppTimeKey(app, mode), FormatInt(time));
    }
  }
}
