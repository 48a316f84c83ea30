/**
 * The item-key parser of get_hosts_disk_day.py: `re.match` of the pattern
 * `vfs\.fs\.size\[(.*?),(pused|total)\]` against a key. The match is anchored
 * at the start only; the lazy group takes the SHORTEST mount text (without a
 * line break, which `.` does not match) that is followed by `,pused]` or
 * `,total]`; whatever follows the `]` is ignored.
 */
module DiskKey {
  import opened Wrappers
  import opened Text

  datatype Metric = Pused | Total

  const KeyPrefix: String := "vfs.fs.size["

  /** The text that closes the key for each metric. */
  function Closing(m: Metric): String {
    match m
    case Pused => ",pused]"
    case Total => ",total]"
  }

  /** The metric whose closing text starts at position `i` of `rest`, if any. */
  function ClosingAt(rest: String, i: nat): (r: Option<Metric>)
    requires i <= |rest|
    ensures r.Some? <==> IsPrefix(Closing(Pused), rest[i..]) || IsPrefix(Closing(Total), rest[i..])
    ensures r.Some? ==> IsPrefix(Closing(r.value), rest[i..])
  {
    if IsPrefix(Closing(Pused), rest[i..]) then Some(Pused)
    else if IsPrefix(Closing(Total), rest[i..]) then Some(Total)
    else None
  }

  /** The lazy group: try mount lengths `i, i + 1, ...`, never across a line break. */
  function ScanMount(rest: String, i: nat): Option<(String, Metric)>
    requires i <= |rest|
    decreases |rest| - i
  {
    match ClosingAt(rest, i)
    case Some(m) => Some((rest[..i], m))
    case None => if i < |rest| && rest[i] != '\n' then ScanMount(rest, i + 1) else None
  }

  /** `re.match(...)` followed by `match.groups()`: the mount point and the metric, or no match. */
  function ParseKey(key: String): Option<(String, Metric)> {
    if IsPrefix(KeyPrefix, key) then ScanMount(key[|KeyPrefix|..], 0) else None
  }

  /** `rest` starts with `mount` followed by the closing text of `m`. */
  predicate ClosedBy(rest: String, mount: String, m: Metric) {
    IsPrefix(mount + Closing(m), rest)
  }

  /** No position before `n` of `rest` starts a closing text. */
  predicate NoEarlierClose(rest: String, n: nat)
    requires n <= |rest|
  {
    forall j | 0 <= j < n :: ClosingAt(rest, j).None?
  }

  lemma {:induction false} ScanMountSound(rest: String, i: nat)
    requires i <= |rest| && NoEarlierClose(rest, i) && '\n' !in rest[..i]
    ensures match ScanMount(rest, i)
      case Some((mount, m)) =>
        && ClosedBy(rest, mount, m) && '\n' !in mount && NoEarlierClose(rest, |mount|)
      case None => true
    decreases |rest| - i
  {
    match ClosingAt(rest, i)
    case Some(m) =>
      assert rest[..i] + Closing(m) == rest[..i + |Closing(m)|];
    case None =>
      if i < |rest| && rest[i] != '\n' {
        assert rest[..i + 1] == rest[..i] + [rest[i]];
        ScanMountSound(rest, i + 1);
      }
  }

  /**
   * What a match means: the key is the prefix, a mount without a line break,
   * the metric's closing text and an ignored tail; no shorter mount is closed.
   */
  lemma ParseKeySound(key: String)
    ensures match ParseKey(key)
      case Some((mount, m)) =>
        && IsPrefix(KeyPrefix, key)
        && ClosedBy(key[|KeyPrefix|..], mount, m)
        && '\n' !in mount
        && NoEarlierClose(key[|KeyPrefix|..], |mount|)
      case None => true
  {
    if IsPrefix(KeyPrefix, key) {
      ScanMountSound(key[|KeyPrefix|..], 0);
    }
  }

  /** A key that does not start with `vfs.fs.size[` never matches. */
  lemma ParseKeyNeedsPrefix(key: String)
    requires !IsPrefix(KeyPrefix, key)
    ensures ParseKey(key) == None
  {
  }

  /** The two closing texts differ in their second character, so at most one starts at a position. */
  lemma ClosingAtClose(rest: String, i: nat, m: Metric)
    requires i <= |rest| && IsPrefix(Closing(m), rest[i..])
    ensures ClosingAt(rest, i) == Some(m)
  {
    if m == Total {
      assert rest[i..][1] == Closing(Total)[1] == 't';
      assert Closing(Pused)[1] == 'p';
    }
  }

  /** No closing text starts at a position holding a character other than a comma. */
  lemma ClosingAtOther(rest: String, i: nat)
    requires i < |rest| && rest[i] != ','
    ensures ClosingAt(rest, i) == None
  {
    assert rest[i..][0] == rest[i];
    assert Closing(Pused)[0] == ',' && Closing(Total)[0] == ',';
  }

  /**
   * The lazy group stops at the first closing text: when none starts before
   * `n` and no line break lies between `i` and `n`, the scan from `i` ends
   * with the mount `rest[..n]`. The mount may hold commas.
   */
  lemma {:induction false} ScanMountFinds(rest: String, n: nat, m: Metric, i: nat)
    requires i <= n <= |rest| && IsPrefix(Closing(m), rest[n..])
    requires NoEarlierClose(rest, n) && '\n' !in rest[i..n]
    ensures ScanMount(rest, i) == Some((rest[..n], m))
    decreases n - i
  {
    if i == n {
      ClosingAtClose(rest, i, m);
    } else {
      assert rest[i] == rest[i..n][0];
      assert rest[i + 1..n] == rest[i..n][1..];
      ScanMountFinds(rest, n, m, i + 1);
    }
  }

  /** The scan from `i` finds a mount whenever a closing text starts at some `n >= i` with no line break before it. */
  lemma {:induction false} ScanMountReaches(rest: String, n: nat, i: nat)
    requires i <= n <= |rest| && ClosingAt(rest, n).Some? && '\n' !in rest[i..n]
    ensures ScanMount(rest, i).Some?
    decreases n - i
  {
    if ClosingAt(rest, i).None? {
      assert i != n;
      assert rest[i] == rest[i..n][0];
      assert rest[i + 1..n] == rest[i..n][1..];
      ScanMountReaches(rest, n, i + 1);
    }
  }

  /** `key` is the prefix, `mount` without a line break, the closing text of `m` and any tail. */
  predicate Matches(key: String, mount: String, m: Metric) {
    IsPrefix(KeyPrefix, key) && '\n' !in mount && ClosedBy(key[|KeyPrefix|..], mount, m)
  }

  /**
   * `re.match` gives the groups `(mount, m)` exactly when the key reads as
   * prefix, mount, closing text and tail, and no shorter mount is closed.
   */
  lemma ParseKeyExact(key: String, mount: String, m: Metric)
    ensures ParseKey(key) == Some((mount, m)) <==>
      Matches(key, mount, m) && NoEarlierClose(key[|KeyPrefix|..], |mount|)
  {
    if ParseKey(key) == Some((mount, m)) {
      ParseKeySound(key);
    }
    if Matches(key, mount, m) && NoEarlierClose(key[|KeyPrefix|..], |mount|) {
      var rest := key[|KeyPrefix|..];
      assert rest[|mount|..][..|Closing(m)|] == rest[..|mount| + |Closing(m)|][|mount|..];
      assert rest[0..|mount|] == mount;
      ScanMountFinds(rest, |mount|, m, 0);
    }
  }

  /** No match (`re.match` returns `None`) exactly when the key has no such reading at all. */
  lemma ParseKeyNone(key: String)
    ensures ParseKey(key).None? <==> forall mount, m :: !Matches(key, mount, m)
  {
    if ParseKey(key).Some? {
      ParseKeySound(key);
      assert Matches(key, ParseKey(key).value.0, ParseKey(key).value.1);
    } else {
      forall mount, m ensures !Matches(key, mount, m) {
        if Matches(key, mount, m) {
          var rest := key[|KeyPrefix|..];
          assert rest[|mount|..][..|Closing(m)|] == (mount + Closing(m))[|mount|..];
          ClosingAtClose(rest, |mount|, m);
          assert rest[0..|mount|] == mount;
          ScanMountReaches(rest, |mount|, 0);
        }
      }
    }
  }

  /**
   * Round trip: a key written as the prefix, a mount free of commas and line
   * breaks, the closing text and any tail parses back to that mount and metric.
   */
  lemma ParseFormattedKey(mount: String, m: Metric, tail: String)
    requires ',' !in mount && '\n' !in mount
    ensures ParseKey(KeyPrefix + mount + Closing(m) + tail) == Some((mount, m))
  {
    var key := KeyPrefix + mount + Closing(m) + tail;
    var rest := mount + Closing(m) + tail;
    assert key[..|KeyPrefix|] == KeyPrefix;
    assert key[|KeyPrefix|..] == rest;
    assert rest[|mount|..] == Closing(m) + tail;
    assert rest[..|mount|] == mount;
    forall j | 0 <= j < |mount| ensures ClosingAt(rest, j).None? {
      assert rest[j] == mount[j];
      ClosingAtOther(rest, j);
    }
    assert rest[0..|mount|] == mount;
    ScanMountFinds(rest, |mount|, m, 0);
  }

  /** The shortest mount wins: `vfs.fs.size[C:,pused],total]` gives mount `C:`, not `C:,pused]`. */
  lemma LazyMountExample()
    ensures ParseKey(KeyPrefix + "C:" + Closing(Pused) + Closing(Total)) == Some(("C:", Pused))
  {
    ParseFormattedKey("C:", Pused, Closing(Total));
  }
}
