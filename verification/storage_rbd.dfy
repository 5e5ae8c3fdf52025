/** The Ceph RBD storage of the host agent: the `:key=value` option string
    appended to `rbd:` disk paths, the defaults filled in when the storage is
    configured, and the small decisions around image calls (size in MB,
    not-found on delete, the cache image name used when saving to the image
    service). Ceph calls are outcomes handed in by the caller. */
module RbdStorage {
  import opened Wrappers
  import opened Text

  datatype StorageConf = StorageConf(
    monHost: string, key: string, pool: string,
    radosMonOpTimeout: int, radosOsdOpTimeout: int, clientMountTimeout: int)

  // -------------------------------------------------------------- escaping

  /** Characters an option value must escape with a backslash. */
  predicate IsConfSpecial(c: char) {
    c == ':' || c == '@' || c == '='
  }

  /** The intended escaping of the key, in one pass: each `:`, `@` and `=`
      gets a backslash in front, every other character stays. */
  function EscapeKey(s: string): (r: string)
    ensures |r| >= |s|
  {
    if |s| == 0 then ""
    else (if IsConfSpecial(s[0]) then ['\\', s[0]] else [s[0]]) + EscapeKey(s[1..])
  }

  /** The key escaping as the code performs it: three `strings.ReplaceAll`
      passes, for `:`, then `@`, then `=`. */
  function EscapeKeyPasses(s: string): string {
    ReplaceChar(ReplaceChar(ReplaceChar(s, ':', "\\:"), '@', "\\@"), '=', "\\=")
  }

  /** The three passes never rewrite each other's output (a backslash is
      not special), so they equal the one-pass escaping. */
  lemma {:induction false} EscapeKeyPassesIsEscapeKey(s: string)
    ensures EscapeKeyPasses(s) == EscapeKey(s)
    decreases |s|
  {
    if |s| > 0 {
      var head, tail := [s[0]], s[1..];
      assert s == head + tail;
      ReplaceCharConcat(head, tail, ':', "\\:");
      var a1, a2 := ReplaceChar(head, ':', "\\:"), ReplaceChar(tail, ':', "\\:");
      ReplaceCharConcat(a1, a2, '@', "\\@");
      var b1, b2 := ReplaceChar(a1, '@', "\\@"), ReplaceChar(a2, '@', "\\@");
      ReplaceCharConcat(b1, b2, '=', "\\=");
      EscapeKeyPassesIsEscapeKey(tail);
      assert ReplaceChar(b1, '=', "\\=") == (if IsConfSpecial(s[0]) then ['\\', s[0]] else [s[0]]);
    }
  }

  /** Reads an escaped value back: a backslash before a special character is
      dropped, everything else is kept. */
  function UnescapeKey(s: string): string
    decreases |s|
  {
    if |s| == 0 then ""
    else if s[0] == '\\' && |s| >= 2 && IsConfSpecial(s[1]) then [s[1]] + UnescapeKey(s[2..])
    else [s[0]] + UnescapeKey(s[1..])
  }

  /** Escaping never starts its output with a special character. */
  lemma EscapeKeyHead(s: string)
    requires |s| > 0
    ensures !IsConfSpecial(EscapeKey(s)[0])
  {
  }

  /** Escaping loses nothing: unescaping gives the key back, whatever it
      contains. */
  lemma {:induction false} UnescapeEscapeKey(s: string)
    ensures UnescapeKey(EscapeKey(s)) == s
    decreases |s|
  {
    if |s| > 0 {
      var e := EscapeKey(s);
      UnescapeEscapeKey(s[1..]);
      if IsConfSpecial(s[0]) {
        assert e == ['\\', s[0]] + EscapeKey(s[1..]);
        assert e[2..] == EscapeKey(s[1..]);
      } else {
        assert e == [s[0]] + EscapeKey(s[1..]);
        assert e[1..] == EscapeKey(s[1..]);
        if s[0] == '\\' && |s| >= 2 {
          EscapeKeyHead(s[1..]);
        }
      }
    }
  }

  /** `mon_host` with every `,` written as `\;`. */
  function EscapeMonHost(m: string): (r: string)
    ensures ',' !in r
    ensures |m| == 1 ==> r == (if m[0] == ',' then "\\;" else m)
  {
    ReplaceChar(m, ',', "\\;")
  }

  /** The escape works character by character: escaping a concatenation
      is concatenating the escapes, so with the one-character case every
      comma becomes `\;` and every other character is kept in place. */
  lemma EscapeMonHostConcat(a: string, b: string)
    ensures EscapeMonHost(a + b) == EscapeMonHost(a) + EscapeMonHost(b)
  {
    ReplaceCharConcat(a, b, ',', "\\;");
  }

  // ------------------------------------------------------ the option string

  datatype TimeoutName = MonOpTimeout | OsdOpTimeout | ClientMountTimeout

  function TimeoutKey(n: TimeoutName): string {
    match n
    case MonOpTimeout => "rados_mon_op_timeout"
    case OsdOpTimeout => "rados_osd_op_timeout"
    case ClientMountTimeout => "client_mount_timeout"
  }

  function TimeoutValue(c: StorageConf, n: TimeoutName): int {
    match n
    case MonOpTimeout => c.radosMonOpTimeout
    case OsdOpTimeout => c.radosOsdOpTimeout
    case ClientMountTimeout => c.clientMountTimeout
  }

  /** An order in which Go may iterate the three-entry timeout map: each
      name exactly once. */
  predicate IsMapOrder(order: seq<TimeoutName>) {
    |order| == 3 && order[0] != order[1] && order[1] != order[2] && order[0] != order[2]
  }

  function TimeoutEntry(c: StorageConf, n: TimeoutName): string {
    TimeoutKey(n) + "=" + FormatInt(TimeoutValue(c, n))
  }

  /** The entries of `getStorageConfString`, in the order they are joined;
      `order` is the iteration order of the timeout map. */
  function ConfEntries(c: StorageConf, order: seq<TimeoutName>): (r: seq<string>)
    requires IsMapOrder(order)
    ensures |r| == (if c.key == "" then 4 else 5)
    ensures r[0] == "mon_host=" + EscapeMonHost(c.monHost)
    ensures c.key != "" ==> r[1] == "key=" + EscapeKeyPasses(c.key)
  {
    var keyPart := if |c.key| > 0 then ["key=" + EscapeKeyPasses(c.key)] else [];
    ["mon_host=" + EscapeMonHost(c.monHost)] + keyPart
      + [TimeoutEntry(c, order[0]), TimeoutEntry(c, order[1]), TimeoutEntry(c, order[2])]
  }

  /** The last three entries are the three timeouts, each exactly once,
      whatever the map order. */
  lemma ConfEntriesTimeouts(c: StorageConf, order: seq<TimeoutName>, n: TimeoutName)
    requires IsMapOrder(order)
    ensures var r := ConfEntries(c, order);
            exists i :: |r| - 3 <= i < |r| && r[i] == TimeoutEntry(c, n)
  {
    var r := ConfEntries(c, order);
    var k := |r| - 3;
    assert r[k] == TimeoutEntry(c, order[0]) && r[k + 1] == TimeoutEntry(c, order[1])
        && r[k + 2] == TimeoutEntry(c, order[2]);
    assert n == order[0] || n == order[1] || n == order[2];
  }

  /** `getStorageConfString`. */
  function ConfString(c: StorageConf, order: seq<TimeoutName>): (r: string)
    requires IsMapOrder(order)
    ensures HasPrefix(r, ":mon_host=")
  {
    var entries := ConfEntries(c, order);
    var joined := Join(entries, ":");
    JoinStartsWithFirst(entries, ":");
    var host := EscapeMonHost(c.monHost);
    assert entries[0] == "mon_host=" + host;
    assert ("mon_host=" + host)[..9] == "mon_host=";
    PrefixOfPrefix("mon_host=", entries[0], joined);
    assert joined[..9] == "mon_host=";
    assert (":" + joined)[..10] == ":" + joined[..9];
    ":" + joined
  }

  lemma JoinStartsWithFirst(parts: seq<string>, sep: string)
    requires |parts| > 0
    ensures HasPrefix(Join(parts, sep), parts[0])
  {
    if |parts| > 1 {
      var rest := sep + Join(parts[1..], sep);
      assert Join(parts, sep) == parts[0] + rest;
      assert (parts[0] + rest)[..|parts[0]|] == parts[0];
    }
  }

  lemma PrefixOfPrefix(a: string, b: string, s: string)
    requires HasPrefix(b, a) && HasPrefix(s, b)
    ensures HasPrefix(s, a)
  {
    assert s[..|a|] == s[..|b|][..|a|];
  }

  // ------------------------------------------- reading the option string back

  /** Splits an option string into fields at every `:` that is not escaped;
      a backslash escapes the character after it. `cur` is the field being
      read. */
  function SplitFields(s: string, cur: string): (r: seq<string>)
    ensures |r| > 0
    decreases |s|
  {
    if |s| == 0 then [cur]
    else if s[0] == '\\' && |s| >= 2 then SplitFields(s[2..], cur + s[..2])
    else if s[0] == ':' then [cur] + SplitFields(s[1..], "")
    else SplitFields(s[1..], cur + [s[0]])
  }

  /** A field the splitter reads whole: no bare `:` and no backslash left
      without a character to escape. */
  predicate CleanField(e: string)
    decreases |e|
  {
    if |e| == 0 then true
    else if e[0] == '\\' then |e| >= 2 && CleanField(e[2..])
    else e[0] != ':' && CleanField(e[1..])
  }

  lemma {:induction false} PlainIsClean(e: string)
    requires ':' !in e && '\\' !in e
    ensures CleanField(e)
    decreases |e|
  {
    if |e| > 0 {
      PlainIsClean(e[1..]);
    }
  }

  lemma {:induction false} CleanConcat(a: string, b: string)
    requires CleanField(a) && CleanField(b)
    ensures CleanField(a + b)
    decreases |a|
  {
    if |a| == 0 {
      assert a + b == b;
    } else if a[0] == '\\' {
      CleanConcat(a[2..], b);
      assert (a + b)[2..] == a[2..] + b;
    } else {
      CleanConcat(a[1..], b);
      assert (a + b)[1..] == a[1..] + b;
    }
  }

  lemma {:induction false} EscapedKeyIsClean(k: string)
    requires '\\' !in k
    ensures CleanField(EscapeKey(k))
    decreases |k|
  {
    if |k| > 0 {
      EscapedKeyIsClean(k[1..]);
      var head := if IsConfSpecial(k[0]) then ['\\', k[0]] else [k[0]];
      assert CleanField(head) by {
        if IsConfSpecial(k[0]) {
          assert head[2..] == [];
        } else {
          assert head[1..] == [];
        }
      }
      CleanConcat(head, EscapeKey(k[1..]));
    }
  }

  lemma {:induction false} EscapedMonHostIsClean(m: string)
    requires ':' !in m && '\\' !in m
    ensures CleanField(EscapeMonHost(m))
    decreases |m|
  {
    if |m| > 0 {
      assert m == [m[0]] + m[1..];
      ReplaceCharConcat([m[0]], m[1..], ',', "\\;");
      EscapedMonHostIsClean(m[1..]);
      var head := ReplaceChar([m[0]], ',', "\\;");
      assert CleanField(head) by {
        if m[0] == ',' {
          assert head == "\\;";
          assert head[2..] == [];
        } else {
          assert head == [m[0]];
          assert head[1..] == [];
        }
      }
      CleanConcat(head, EscapeMonHost(m[1..]));
    }
  }

  /** Reading a clean field appends it to the current one. */
  lemma {:induction false} SplitCleanField(e: string, s: string, cur: string)
    requires CleanField(e)
    ensures SplitFields(e + s, cur) == SplitFields(s, cur + e)
    decreases |e|
  {
    if |e| == 0 {
      assert e + s == s;
      assert cur + e == cur;
    } else if e[0] == '\\' {
      assert (e + s)[..2] == e[..2];
      assert (e + s)[2..] == e[2..] + s;
      SplitCleanField(e[2..], s, cur + e[..2]);
      assert cur + e[..2] + e[2..] == cur + e;
    } else {
      assert (e + s)[1..] == e[1..] + s;
      SplitCleanField(e[1..], s, cur + [e[0]]);
      assert cur + [e[0]] + e[1..] == cur + e;
    }
  }

  /** Joining clean fields with `:` and splitting again gives the fields. */
  lemma {:induction false} SplitJoin(fields: seq<string>)
    requires |fields| > 0
    requires forall i :: 0 <= i < |fields| ==> CleanField(fields[i])
    ensures SplitFields(Join(fields, ":"), "") == fields
    decreases |fields|
  {
    if |fields| == 1 {
      SplitCleanField(fields[0], "", "");
      assert fields[0] + "" == fields[0];
      assert "" + fields[0] == fields[0];
    } else {
      var rest := Join(fields[1..], ":");
      assert Join(fields, ":") == fields[0] + (":" + rest);
      SplitCleanField(fields[0], ":" + rest, "");
      assert "" + fields[0] == fields[0];
      assert (":" + rest)[1..] == rest;
      SplitJoin(fields[1..]);
      assert fields == [fields[0]] + fields[1..];
    }
  }

  lemma TimeoutEntryIsClean(c: StorageConf, n: TimeoutName)
    ensures CleanField(TimeoutEntry(c, n))
  {
    var v := FormatInt(TimeoutValue(c, n));
    assert forall i :: 0 <= i < |v| ==> v[i] != ':' && v[i] != '\\';
    PlainIsClean(v);
    PlainIsClean(TimeoutKey(n) + "=");
    CleanConcat(TimeoutKey(n) + "=", v);
  }

  /** The option string carries its entries intact: splitting it at the
      unescaped colons gives an empty field (before the leading `:`) and
      then each entry, and the key entry unescapes to the configured key.
      This needs a `mon_host` without `:` (the code escapes only its
      commas) and no backslash in the host or key. */
  lemma ConfStringRoundTrip(c: StorageConf, order: seq<TimeoutName>)
    requires IsMapOrder(order)
    requires ':' !in c.monHost && '\\' !in c.monHost && '\\' !in c.key
    ensures SplitFields(ConfString(c, order), "") == [""] + ConfEntries(c, order)
    ensures c.key != "" ==> UnescapeKey(ConfEntries(c, order)[1][4..]) == c.key
  {
    var entries := ConfEntries(c, order);
    EntriesAreClean(c, order);
    SplitJoin(entries);
    var joined := Join(entries, ":");
    assert (":" + joined)[0] == ':';
    assert (":" + joined)[1..] == joined;
    if c.key != "" {
      EscapeKeyPassesIsEscapeKey(c.key);
      assert entries[1][4..] == EscapeKey(c.key);
      UnescapeEscapeKey(c.key);
    }
  }

  lemma EntriesAreClean(c: StorageConf, order: seq<TimeoutName>)
    requires IsMapOrder(order)
    requires ':' !in c.monHost && '\\' !in c.monHost && '\\' !in c.key
    ensures forall i :: 0 <= i < |ConfEntries(c, order)| ==> CleanField(ConfEntries(c, order)[i])
  {
    var entries := ConfEntries(c, order);
    var k := if c.key == "" then 1 else 2;
    MonHostEntryIsClean(c.monHost);
    if c.key != "" {
      KeyEntryIsClean(c.key);
    }
    TimeoutEntryIsClean(c, order[0]);
    TimeoutEntryIsClean(c, order[1]);
    TimeoutEntryIsClean(c, order[2]);
    assert entries[k] == TimeoutEntry(c, order[0]);
    assert entries[k + 1] == TimeoutEntry(c, order[1]);
    assert entries[k + 2] == TimeoutEntry(c, order[2]);
  }

  lemma MonHostEntryIsClean(m: string)
    requires ':' !in m && '\\' !in m
    ensures CleanField("mon_host=" + EscapeMonHost(m))
  {
    PlainIsClean("mon_host=");
    EscapedMonHostIsClean(m);
    CleanConcat("mon_host=", EscapeMonHost(m));
  }

  lemma KeyEntryIsClean(k: string)
    requires '\\' !in k
    ensures CleanField("key=" + EscapeKeyPasses(k))
  {
    EscapeKeyPassesIsEscapeKey(k);
    PlainIsClean("key=");
    EscapedKeyIsClean(k);
    CleanConcat("key=", EscapeKey(k));
  }

  // --------------------------------------------------------- configuration

  /** The fields present in the JSON configuration handed to
      `SetStorageInfo`; an absent field leaves the current value. */
  datatype ConfInput = ConfInput(
    monHost: Option<string>, key: Option<string>, pool: Option<string>,
    radosMonOpTimeout: Option<int>, radosOsdOpTimeout: Option<int>, clientMountTimeout: Option<int>)

  /** The RBD default timeouts (`RBD_DEFAULT_MON_TIMEOUT`,
      `RBD_DEFAULT_OSD_TIMEOUT`, `RBD_DEFAULT_MOUNT_TIMEOUT`). */
  datatype Defaults = Defaults(mon: int, osd: int, mount: int)

  datatype Storage = Storage(storageId: string, storageName: string, conf: StorageConf)

  /** Unmarshalling the JSON over the current configuration. */
  function Overlay(c: StorageConf, input: ConfInput): StorageConf {
    StorageConf(
      input.monHost.GetOr(c.monHost), input.key.GetOr(c.key), input.pool.GetOr(c.pool),
      input.radosMonOpTimeout.GetOr(c.radosMonOpTimeout),
      input.radosOsdOpTimeout.GetOr(c.radosOsdOpTimeout),
      input.clientMountTimeout.GetOr(c.clientMountTimeout))
  }

  /** Each zero timeout replaced by its default. */
  function ApplyDefaults(c: StorageConf, d: Defaults): (r: StorageConf)
    ensures r.monHost == c.monHost && r.key == c.key && r.pool == c.pool
    ensures c.radosMonOpTimeout != 0 ==> r.radosMonOpTimeout == c.radosMonOpTimeout
    ensures c.radosOsdOpTimeout != 0 ==> r.radosOsdOpTimeout == c.radosOsdOpTimeout
    ensures c.clientMountTimeout != 0 ==> r.clientMountTimeout == c.clientMountTimeout
    ensures c.radosMonOpTimeout == 0 ==> r.radosMonOpTimeout == d.mon
    ensures c.radosOsdOpTimeout == 0 ==> r.radosOsdOpTimeout == d.osd
    ensures c.clientMountTimeout == 0 ==> r.clientMountTimeout == d.mount
  {
    c.(radosMonOpTimeout := if c.radosMonOpTimeout == 0 then d.mon else c.radosMonOpTimeout)
     .(radosOsdOpTimeout := if c.radosOsdOpTimeout == 0 then d.osd else c.radosOsdOpTimeout)
     .(clientMountTimeout := if c.clientMountTimeout == 0 then d.mount else c.clientMountTimeout)
  }

  /** With non-zero defaults, filling in defaults twice is filling them in
      once, and no timeout is left zero. */
  lemma ApplyDefaultsIdempotent(c: StorageConf, d: Defaults)
    requires d.mon != 0 && d.osd != 0 && d.mount != 0
    ensures ApplyDefaults(ApplyDefaults(c, d), d) == ApplyDefaults(c, d)
    ensures ApplyDefaults(c, d).radosMonOpTimeout != 0
    ensures ApplyDefaults(c, d).radosOsdOpTimeout != 0
    ensures ApplyDefaults(c, d).clientMountTimeout != 0
  {
  }

  /** `SetStorageInfo`: records the id and name first, then fails on a nil
      configuration, otherwise reads it and fills in default timeouts. */
  function SetStorageInfo(s: Storage, storageId: string, storageName: string,
                          conf: Option<ConfInput>, d: Defaults): (r: (Storage, Outcome<string>))
    ensures r.0.storageId == storageId && r.0.storageName == storageName
    ensures r.1.Fail? <==> conf.None?
    ensures conf.None? ==> r.0.conf == s.conf
    ensures conf.Some? ==> r.0.conf == ApplyDefaults(Overlay(s.conf, conf.value), d)
  {
    var s' := s.(storageId := storageId, storageName := storageName);
    match conf
    case None =>
      (s', Fail("empty storage conf for storage " + storageName + "(" + storageId + ")"))
    case Some(input) =>
      (s'.(conf := ApplyDefaults(Overlay(s.conf, input), d)), Pass)
  }

  // ---------------------------------------------------------- image calls

  const TwoTo64: int := 0x1_0000_0000_0000_0000
  const BytesPerMb: int := 1024 * 1024

  /** `getImageSizeMb` after `GetInfo` returned `sizeByte` (an `int64`): the
      size is cast to `uint64`, then divided by 1024 twice. */
  function ImageSizeMb(sizeByte: int): (r: int)
    requires MinInt64 <= sizeByte <= MaxInt64
    ensures 0 <= sizeByte ==> r * BytesPerMb <= sizeByte < (r + 1) * BytesPerMb
    ensures sizeByte < 0 ==> r * BytesPerMb <= sizeByte + TwoTo64 < (r + 1) * BytesPerMb
    ensures 0 <= r < TwoTo64 / BytesPerMb
  {
    var unsigned := if sizeByte < 0 then sizeByte + TwoTo64 else sizeByte;
    unsigned / 1024 / 1024
  }

  /** What `GetImage` reported. `ImageNotFound` is an error whose cause is
      `ErrNotFound`. */
  datatype ImageLookup = ImageFound | ImageNotFound | ImageError(msg: string)

  /** `deleteImage`: a missing image counts as deleted. Returns the outcome
      and whether `Delete` was called. */
  function DeleteImage(client: Outcome<string>, lookup: ImageLookup, deleted: Outcome<string>): (r: (Outcome<string>, bool))
    ensures r.1 <==> client.Pass? && lookup.ImageFound?
    ensures r.1 ==> r.0 == deleted
    ensures client.Pass? && lookup.ImageNotFound? ==> r.0.Pass?
    ensures client.Fail? || lookup.ImageError? ==> r.0.Fail?
  {
    match client
    case Fail(e) => (Fail("GetClient: " + e), false)
    case Pass =>
      match lookup
      case ImageNotFound => (Pass, false)
      case ImageError(e) => (Fail("GetImage: " + e), false)
      case ImageFound => (deleted, true)
  }

  /** A rename of an image inside a pool. */
  datatype Rename = Rename(pool: string, from: string, to: string)

  datatype SaveResult =
    | ParamsError                              // the parameters are not a dictionary
    | NoImageCache                             // no image cache for this storage
    | RenameFailed(rename: Rename, msg: string)
    | Saved(rename: Rename, diskPath: string, markedKilled: bool)

  function CacheImageName(imageId: string): string {
    "image_cache_" + imageId
  }

  /** `SaveToGlance`: renames the image into the cache pool as
      `image_cache_<imageId>`, then hands `rbd:<pool>/<name><options>` to the
      upload; a failed upload marks the image killed but is not an error.
      `imageCachePath` is `None` when the storage has no image cache. */
  function SaveToGlance(isDict: bool, imageCachePath: Option<string>, imagePath: string, imageId: string,
                        c: StorageConf, order: seq<TimeoutName>,
                        renamed: Outcome<string>, uploaded: Outcome<string>): (r: SaveResult)
    requires IsMapOrder(order)
    ensures !isDict <==> r.ParamsError?
    ensures isDict && imageCachePath.None? <==> r.NoImageCache?
    ensures r.RenameFailed? || r.Saved? ==>
              r.rename == Rename(imageCachePath.value, imagePath, CacheImageName(imageId))
    ensures r.RenameFailed? <==> isDict && imageCachePath.Some? && renamed.Fail?
    ensures r.Saved? ==>
              r.diskPath == "rbd:" + imageCachePath.value + "/" + CacheImageName(imageId) + ConfString(c, order)
              && (r.markedKilled <==> uploaded.Fail?)
  {
    if !isDict then ParamsError
    else if imageCachePath.None? then NoImageCache
    else
      var pool := imageCachePath.value;
      var rename := Rename(pool, imagePath, CacheImageName(imageId));
      match renamed
      case Fail(e) => RenameFailed(rename, e)
      case Pass =>
        Saved(rename, "rbd:" + pool + "/" + CacheImageName(imageId) + ConfString(c, order), uploaded.Fail?)
  }
}
