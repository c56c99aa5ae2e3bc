/** Why reading the index directory in the order of its file names rebuilds the chain in the order of creation. */
module SnapshotNames {
  import opened Prelude
  import opened Snapshots

  datatype DateTime = DateTime(year: nat, month: nat, day: nat, hours: nat, minutes: nat, seconds: nat) {
    /** Four-digit years; the other parts have two digits. */
    predicate Valid() {
      year < 10000 && 1 <= month <= 12 && 1 <= day <= 31 && hours < 24 && minutes < 60 && seconds < 60
    }

    /** Earlier by at least a second. */
    predicate IsBefore(other: DateTime) {
      || year < other.year
      || (year == other.year
          && (|| month < other.month
              || (month == other.month
                  && (|| day < other.day
                      || (day == other.day
                          && hours * 3600 + minutes * 60 + seconds
                             < other.hours * 3600 + other.minutes * 60 + other.seconds)))))
    }

    function Parts(): seq<nat> {
      [year, month, day, hours, minutes, seconds]
    }
  }

  predicate Earlier(a: seq<nat>, b: seq<nat>)
    requires |a| == |b|
  {
    a != [] && (a[0] < b[0] || (a[0] == b[0] && Earlier(a[1..], b[1..])))
  }

  /** Number with leading zeros. */
  function Digits(n: nat, width: nat): string {
    if width == 0 then "" else Digits(n / 10, width - 1) + [Digit(n % 10)]
  }

  function Digit(d: nat): char
    requires d < 10
  {
    '0' + d as char
  }

  /** What stands before each number of a name, and the widths of the numbers. */
  const SEPARATORS: seq<string> := ["snapshot_", "-", "-", "_", "_", "_"]
  const WIDTHS: seq<nat> := [4, 2, 2, 2, 2, 2]

  /** Numbers of fixed widths, each after its separator. */
  function Layout(separators: seq<string>, widths: seq<nat>, numbers: seq<nat>): string
    requires |separators| == |widths| == |numbers|
  {
    if numbers == [] then ""
    else separators[0] + (Digits(numbers[0], widths[0]) + Layout(separators[1..], widths[1..], numbers[1..]))
  }

  /** "snapshot_YYYY-MM-DD_HH_MM_SS" */
  function SnapshotName(t: DateTime): string {
    Layout(SEPARATORS, WIDTHS, t.Parts())
  }

  function IndexFile(t: DateTime): string {
    SnapshotName(t) + ".xml" + ".lzma"
  }

  /** The order in which file names are sorted. */
  predicate LexLess(a: string, b: string) {
    b != "" && (a == "" || a[0] < b[0] || (a[0] == b[0] && LexLess(a[1..], b[1..])))
  }

  lemma {:induction false} LexAsymmetric(a: string, b: string)
    requires LexLess(a, b)
    ensures !LexLess(b, a)
  {
    if a != "" && a[0] == b[0] { LexAsymmetric(a[1..], b[1..]); }
  }

  lemma {:induction false} LexFirst(a: string, b: string, x: string, y: string)
    requires |a| == |b| && LexLess(a, b)
    ensures LexLess(a + x, b + y)
  {
    if a[0] == b[0] {
      LexFirst(a[1..], b[1..], x, y);
      assert (a + x)[1..] == a[1..] + x && (b + y)[1..] == b[1..] + y;
    }
  }

  lemma {:induction false} LexSecond(a: string, x: string, y: string)
    requires LexLess(x, y)
    ensures LexLess(a + x, a + y)
  {
    if a == "" {
      assert a + x == x && a + y == y;
    } else {
      LexSecond(a[1..], x, y);
      assert (a + x)[1..] == a[1..] + x && (a + y)[1..] == a[1..] + y;
    }
  }

  function Power10(k: nat): nat {
    if k == 0 then 1 else 10 * Power10(k - 1)
  }

  lemma {:induction false} DigitsLength(n: nat, width: nat)
    ensures |Digits(n, width)| == width
  {
    if width > 0 { DigitsLength(n / 10, width - 1); }
  }

  lemma {:induction false} DigitsOrdered(n: nat, m: nat, width: nat)
    requires n < m < Power10(width)
    ensures LexLess(Digits(n, width), Digits(m, width))
  {
    if width > 0 {
      DigitsLength(n / 10, width - 1);
      DigitsLength(m / 10, width - 1);
      if n / 10 < m / 10 {
        DigitsOrdered(n / 10, m / 10, width - 1);
        LexFirst(Digits(n / 10, width - 1), Digits(m / 10, width - 1), [Digit(n % 10)], [Digit(m % 10)]);
      } else {
        LexSecond(Digits(n / 10, width - 1), [Digit(n % 10)], [Digit(m % 10)]);
      }
    }
  }

  lemma {:induction false} LayoutLength(separators: seq<string>, widths: seq<nat>, a: seq<nat>, b: seq<nat>)
    requires |separators| == |widths| == |a| == |b|
    ensures |Layout(separators, widths, a)| == |Layout(separators, widths, b)|
  {
    if a != [] {
      DigitsLength(a[0], widths[0]);
      DigitsLength(b[0], widths[0]);
      LayoutLength(separators[1..], widths[1..], a[1..], b[1..]);
    }
  }

  lemma {:induction false} LayoutOrdered(separators: seq<string>, widths: seq<nat>, a: seq<nat>, b: seq<nat>)
    requires |separators| == |widths| == |a| == |b| && Earlier(a, b)
    requires forall i | 0 <= i < |a| :: a[i] < Power10(widths[i]) && b[i] < Power10(widths[i])
    ensures LexLess(Layout(separators, widths, a), Layout(separators, widths, b))
  {
    var x, y := Layout(separators[1..], widths[1..], a[1..]), Layout(separators[1..], widths[1..], b[1..]);
    DigitsLength(a[0], widths[0]);
    DigitsLength(b[0], widths[0]);
    if a[0] < b[0] {
      DigitsOrdered(a[0], b[0], widths[0]);
      LexFirst(Digits(a[0], widths[0]), Digits(b[0], widths[0]), x, y);
    } else {
      LayoutOrdered(separators[1..], widths[1..], a[1..], b[1..]);
      LexSecond(Digits(a[0], widths[0]), x, y);
    }
    LexSecond(separators[0], Digits(a[0], widths[0]) + x, Digits(b[0], widths[0]) + y);
  }

  lemma EarlierFrom(a: seq<nat>, b: seq<nat>, i: nat)
    requires i < |a| == |b|
    ensures Earlier(a[i..], b[i..]) <==> a[i] < b[i] || (a[i] == b[i] && Earlier(a[i + 1..], b[i + 1..]))
  {
    assert a[i..][1..] == a[i + 1..] && b[i..][1..] == b[i + 1..];
  }

  lemma PartsOrdered(a: DateTime, b: DateTime)
    requires a.Valid() && b.Valid()
    ensures Earlier(a.Parts(), b.Parts()) <==> a.IsBefore(b)
  {
    var p, q := a.Parts(), b.Parts();
    assert p[0..] == p && q[0..] == q && p[6..] == [];
    EarlierFrom(p, q, 0);
    EarlierFrom(p, q, 1);
    EarlierFrom(p, q, 2);
    EarlierFrom(p, q, 3);
    EarlierFrom(p, q, 4);
    EarlierFrom(p, q, 5);
  }

  /** Later snapshots have later file names. */
  lemma NamesOrdered(a: DateTime, b: DateTime)
    requires a.Valid() && b.Valid() && a.IsBefore(b)
    ensures LexLess(IndexFile(a), IndexFile(b))
  {
    PartsOrdered(a, b);
    assert Power10(2) == 100 && Power10(4) == 10000 by {
      assert Power10(1) == 10 && Power10(3) == 1000;
    }
    LayoutLength(SEPARATORS, WIDTHS, a.Parts(), b.Parts());
    LayoutOrdered(SEPARATORS, WIDTHS, a.Parts(), b.Parts());
    LexFirst(SnapshotName(a), SnapshotName(b), ".xml", ".xml");
    LexFirst(SnapshotName(a) + ".xml", SnapshotName(b) + ".xml", ".lzma", ".lzma");
  }

  /** The number that a string of digits stands for. */
  function NumberOf(digits: string): nat
    requires forall i | 0 <= i < |digits| :: '0' <= digits[i] <= '9'
  {
    if digits == "" then 0
    else 10 * NumberOf(digits[..|digits| - 1]) + (digits[|digits| - 1] as int - '0' as int)
  }

  lemma {:induction false} DigitsExactly(n: nat, width: nat)
    requires n < Power10(width)
    ensures |Digits(n, width)| == width
    ensures forall i | 0 <= i < width :: '0' <= Digits(n, width)[i] <= '9'
    ensures NumberOf(Digits(n, width)) == n
  {
    DigitsLength(n, width);
    if width > 0 {
      DigitsExactly(n / 10, width - 1);
      assert Digits(n, width)[..width - 1] == Digits(n / 10, width - 1);
    }
  }

  /** The name of a snapshot, written out: date and time with leading zeros. */
  lemma NameExactly(t: DateTime)
    ensures SnapshotName(t)
         == "snapshot_" + (Digits(t.year, 4) + ("-" + (Digits(t.month, 2) + ("-" + (Digits(t.day, 2)
            + ("_" + (Digits(t.hours, 2) + ("_" + (Digits(t.minutes, 2) + ("_" + Digits(t.seconds, 2)))))))))))
  {
    var parts := t.Parts();
    assert SEPARATORS[0..] == SEPARATORS && WIDTHS[0..] == WIDTHS && parts[0..] == parts;
    LayoutFrom(SEPARATORS, WIDTHS, parts, 0);
    LayoutFrom(SEPARATORS, WIDTHS, parts, 1);
    LayoutFrom(SEPARATORS, WIDTHS, parts, 2);
    LayoutFrom(SEPARATORS, WIDTHS, parts, 3);
    LayoutFrom(SEPARATORS, WIDTHS, parts, 4);
    LayoutFrom(SEPARATORS, WIDTHS, parts, 5);
    assert Layout(SEPARATORS[6..], WIDTHS[6..], parts[6..]) == "";
    NothingAfter(Digits(parts[5], WIDTHS[5]));
  }

  lemma NothingAfter(s: string)
    ensures s + "" == s
  {
  }

  lemma IndexFileExactly(t: DateTime)
    ensures IndexFile(t) == SnapshotName(t) + ".xml.lzma"
  {
    assert ".xml" + ".lzma" == ".xml.lzma";
  }

  lemma LayoutFrom(separators: seq<string>, widths: seq<nat>, numbers: seq<nat>, i: nat)
    requires i < |separators| == |widths| == |numbers|
    ensures Layout(separators[i..], widths[i..], numbers[i..])
         == separators[i] + (Digits(numbers[i], widths[i])
                             + Layout(separators[i + 1..], widths[i + 1..], numbers[i + 1..]))
  {
    assert separators[i..][1..] == separators[i + 1..] && widths[i..][1..] == widths[i + 1..];
    assert numbers[i..][1..] == numbers[i + 1..];
  }

  /** What follows the last dot. */
  function Extension(name: string): string {
    if name == "" || name[|name| - 1] == '.' then "" else Extension(name[..|name| - 1]) + [name[|name| - 1]]
  }

  /** The extension is what follows the last dot. */
  lemma {:induction false} ExtensionExactly(stem: string, ext: string)
    requires '.' !in ext
    ensures Extension(stem + "." + ext) == ext
  {
    if ext == "" {
      assert stem + "." + "" == stem + ".";
    } else {
      var n := |ext| - 1;
      ExtensionExactly(stem, ext[..n]);
      ExtensionNext(stem + "." + ext[..n], ext[n]);
      assert stem + "." + ext == stem + "." + ext[..n] + [ext[n]];
    }
  }

  predicate Sorted(names: seq<string>) {
    forall i, j | 0 <= i < j < |names| :: LexLess(names[i], names[j])
  }

  /** The index files among the names, as Deserialize selects them. */
  function IndexFilesOf(names: seq<string>): seq<string> {
    if names == [] then []
    else (if Extension(names[0]) == "lzma" then [names[0]] else []) + IndexFilesOf(names[1..])
  }

  lemma {:induction false} SelectionSorted(names: seq<string>)
    requires Sorted(names)
    ensures Sorted(IndexFilesOf(names))
    ensures forall f :: f in IndexFilesOf(names) <==> f in names && Extension(f) == "lzma"
  {
    if names != [] {
      SelectionSorted(names[1..]);
      var r, rest := IndexFilesOf(names), IndexFilesOf(names[1..]);
      forall f | f in rest ensures LexLess(names[0], f) {
        var m :| 0 <= m < |names| - 1 && names[1..][m] == f;
        assert LexLess(names[0], names[m + 1]);
      }
      forall i, j | 0 <= i < j < |r| ensures LexLess(r[i], r[j]) {
        if |r| > |rest| {
          assert r[j] == rest[j - 1] && (i > 0 ==> r[i] == rest[i - 1]);
        } else {
          assert r == rest;
        }
      }
    }
  }

  /** A sorted list is determined by its members. */
  lemma {:induction false} SortedUnique(a: seq<string>, b: seq<string>)
    requires Sorted(a) && Sorted(b) && forall f :: f in a <==> f in b
    ensures a == b
  {
    assert a != [] ==> a[0] in b;
    assert b != [] ==> b[0] in a;
    if a != [] {
      if a[0] != b[0] {
        var j :| 0 <= j < |b| && b[j] == a[0];
        var i :| 0 <= i < |a| && a[i] == b[0];
        LexAsymmetric(a[0], b[0]);
      }
      forall f ensures f in a[1..] <==> f in b[1..] {
        HeadOnce(a, f);
        HeadOnce(b, f);
      }
      SortedUnique(a[1..], b[1..]);
    }
  }

  lemma HeadOnce(a: seq<string>, f: string)
    requires Sorted(a) && a != []
    ensures f in a[1..] <==> f in a && f != a[0]
  {
    if f in a[1..] {
      var i :| 0 <= i < |a| - 1 && a[1..][i] == f;
      assert LexLess(a[0], a[i + 1]);
      LexAsymmetric(a[0], a[i + 1]);
    }
  }

  function IndexFiles(times: seq<DateTime>): seq<string> {
    seq(|times|, k requires 0 <= k < |times| => IndexFile(times[k]))
  }

  predicate Increasing(times: seq<DateTime>) {
    (forall k | 0 <= k < |times| :: times[k].Valid())
    && forall j, k | 0 <= j < k < |times| :: times[j].IsBefore(times[k])
  }

  lemma ExtensionNext(name: string, c: char)
    requires c != '.'
    ensures Extension(name + [c]) == Extension(name) + [c]
  {
    assert (name + [c])[..|name|] == name;
  }

  lemma EndsWithLzma(name: string)
    ensures Extension(name + ".lzma") == "lzma"
  {
    ExtensionExactly(name, "lzma");
    assert name + ".lzma" == name + "." + "lzma";
  }

  /** Reading the directory: whatever other files there are, sorting the names and keeping the index files gives the
      snapshots in the order of their creation. */
  lemma ChainOrder(times: seq<DateTime>, names: seq<string>)
    requires Increasing(times) && Sorted(names)
    requires forall k | 0 <= k < |times| :: IndexFile(times[k]) in names
    requires forall f | f in names && Extension(f) == "lzma" :: exists k | 0 <= k < |times| :: f == IndexFile(times[k])
    ensures IndexFilesOf(names) == IndexFiles(times)
  {
    SelectionSorted(names);
    forall j, k | 0 <= j < k < |times| ensures LexLess(IndexFiles(times)[j], IndexFiles(times)[k]) {
      NamesOrdered(times[j], times[k]);
    }
    forall k | 0 <= k < |times| ensures Extension(IndexFile(times[k])) == "lzma" {
      EndsWithLzma(SnapshotName(times[k]) + ".xml");
    }
    forall f ensures f in IndexFilesOf(names) <==> f in IndexFiles(times) {
      if f in IndexFiles(times) {
        var k :| 0 <= k < |times| && IndexFiles(times)[k] == f;
      }
      if f in IndexFilesOf(names) {
        var k :| 0 <= k < |times| && f == IndexFile(times[k]);
        assert IndexFiles(times)[k] == f;
      }
    }
    SortedUnique(IndexFilesOf(names), IndexFiles(times));
  }

  predicate Readable(files: seq<string>, onDisk: map<string, Snapshot>) {
    forall k | 0 <= k < |files| :: files[k] in onDisk
  }

  function Loaded(files: seq<string>, onDisk: map<string, Snapshot>): seq<Snapshot>
    requires Readable(files, onDisk)
  {
    seq(|files|, k requires 0 <= k < |files| && files[k] in onDisk => onDisk[files[k]])
  }

  /** Each snapshot refers to the one before it, the first to none. */
  predicate IsLinked(previous: seq<Option<nat>>) {
    forall k | 0 <= k < |previous| :: previous[k] == if k == 0 then None else Some(k - 1)
  }

  /** The loop of ReadInSnapshots over the sorted names: `onDisk` gives the snapshot of each index file, and
      `previous[k]` is the snapshot that snapshot `k` refers to. */
  method ReadFiles(names: seq<string>, onDisk: map<string, Snapshot>)
    returns (snapshots: seq<Snapshot>, previous: seq<Option<nat>>)
    requires Readable(IndexFilesOf(names), onDisk)
    ensures snapshots == Loaded(IndexFilesOf(names), onDisk) && |previous| == |snapshots|
    ensures forall k | 0 <= k < |previous| :: previous[k] == if k == 0 then None else Some(k - 1)
  {
    snapshots, previous := [], [];
    for i := 0 to |names|
      invariant Readable(IndexFilesOf(names[..i]), onDisk) && snapshots == Loaded(IndexFilesOf(names[..i]), onDisk)
      invariant |previous| == |snapshots| && IsLinked(previous)
    {
      SelectNext(names, i);
      if Extension(names[i]) == "lzma" {
        SelectedIsMember(names, i);
        LoadedNext(IndexFilesOf(names[..i]), names[i], onDisk);
        snapshots := snapshots + [onDisk[names[i]]];
        previous := previous + [if |snapshots| > 1 then Some(|snapshots| - 2) else None];
      }
    }
    assert names[..|names|] == names;
  }

  /** The sorted names in the index directory, once snapshots were made at these times: their index files, and files
      that are none. */
  predicate IsListing(names: seq<string>, times: seq<DateTime>) {
    && Sorted(names)
    && (forall k | 0 <= k < |times| :: IndexFile(times[k]) in names)
    && (forall f | f in names && Extension(f) == "lzma" :: exists k | 0 <= k < |times| :: f == IndexFile(times[k]))
  }

  /** ReadInSnapshots: the result is the chain in the order of creation. */
  method ReadInSnapshots(names: seq<string>, onDisk: map<string, Snapshot>, ghost times: seq<DateTime>)
    returns (snapshots: seq<Snapshot>, previous: seq<Option<nat>>)
    requires Increasing(times) && IsListing(names, times) && Readable(IndexFiles(times), onDisk)
    ensures snapshots == Loaded(IndexFiles(times), onDisk) && |previous| == |times| == |snapshots|
    ensures forall k | 0 < k < |previous| :: previous[k] == Some(k - 1)
    ensures previous != [] ==> previous[0] == None
  {
    ChainOrder(times, names);
    snapshots, previous := ReadFiles(names, onDisk);
  }

  /** Reading the directory again after an index file was added: the old chain, and the new snapshot at its end. */
  lemma LoadedAfterWrite(times: seq<DateTime>, now: DateTime, onDisk: map<string, Snapshot>, snap: Snapshot)
    requires Increasing(times + [now]) && Readable(IndexFiles(times), onDisk)
    ensures var after := onDisk[IndexFile(now) := snap];
            && Readable(IndexFiles(times + [now]), after)
            && Loaded(IndexFiles(times + [now]), after) == Loaded(IndexFiles(times), onDisk) + [snap]
  {
    var times', n := times + [now], |times|;
    forall k | 0 <= k < n ensures IndexFiles(times')[k] == IndexFiles(times)[k] != IndexFile(now) {
      assert times'[k] == times[k] && times'[n] == now;
      NamesOrdered(times'[k], times'[n]);
      if IndexFile(times[k]) == IndexFile(now) { LexAsymmetric(IndexFile(times[k]), IndexFile(now)); }
    }
    assert IndexFiles(times')[n] == IndexFile(now);
  }

  lemma LoadedNext(files: seq<string>, f: string, onDisk: map<string, Snapshot>)
    requires Readable(files, onDisk) && f in onDisk
    ensures Readable(files + [f], onDisk) && Loaded(files + [f], onDisk) == Loaded(files, onDisk) + [onDisk[f]]
  {
  }

  lemma {:induction false} SelectedIsMember(names: seq<string>, i: nat)
    requires i < |names| && Extension(names[i]) == "lzma"
    ensures names[i] in IndexFilesOf(names)
  {
    if i > 0 { SelectedIsMember(names[1..], i - 1); }
  }

  lemma {:induction false} SelectNext(names: seq<string>, i: nat)
    requires i < |names|
    ensures IndexFilesOf(names[..i + 1])
         == IndexFilesOf(names[..i]) + if Extension(names[i]) == "lzma" then [names[i]] else []
  {
    if i == 0 {
      assert names[..1][1..] == [] && names[..0] == [];
    } else {
      SelectNext(names[1..], i - 1);
      assert names[1..][..i - 1] == names[..i][1..] && names[1..][..i] == names[..i + 1][1..];
    }
  }
}
