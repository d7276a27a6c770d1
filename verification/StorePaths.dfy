/**
 Where checkpoint files live: `home/checkpoints/{host}/{session}/index.json` and `delta_{n}.json`.
 A path determines host, session and file, whatever the session id is, as long as hosts hold no '/'.
 */
module StorePaths {
  const ROOT: string := "home/checkpoints/"

  /** Lower case of the ASCII letters; host addresses are hexadecimal. */
  function LowerChar(c: char): char {
    if 'A' <= c <= 'Z' then c - 'A' + 'a' else c
  }

  function ToLower(s: string): (r: string)
    ensures |r| == |s| && forall i :: 0 <= i < |s| ==> r[i] == LowerChar(s[i])
  {
    if s == "" then "" else [LowerChar(s[0])] + ToLower(s[1..])
  }

  function Digit(d: nat): char
    requires d < 10
  {
    '0' + d as char
  }

  function Decimal(n: nat): string {
    if n < 10 then [Digit(n)] else Decimal(n / 10) + [Digit(n % 10)]
  }

  /** `host` is lower case already. */
  function FilePath(host: string, session: string, file: string): string {
    ROOT + (host + ("/" + (session + ("/" + file))))
  }

  const INDEX_FILE: string := "index.json"

  function DeltaFile(n: nat): string {
    "delta_" + (Decimal(n) + ".json")
  }

  function IndexPath(host: string, session: string): string {
    FilePath(ToLower(host), session, INDEX_FILE)
  }

  function DeltaPath(host: string, session: string, n: nat): string {
    FilePath(host, session, DeltaFile(n))
  }

  lemma ToLowerIdempotent(s: string)
    ensures ToLower(ToLower(s)) == ToLower(s)
  {
    hide ToLower;
    assert forall i :: 0 <= i < |s| ==> ToLower(ToLower(s))[i] == ToLower(s)[i];
  }

  /** The paths in full. */
  lemma PathsInFull(host: string, session: string, n: nat)
    ensures IndexPath(host, session) == "home/checkpoints/" + ToLower(host) + "/" + session + "/index.json"
    ensures DeltaPath(host, session, n) == "home/checkpoints/" + host + "/" + session + "/delta_" + Decimal(n) + ".json"
  {
    hide ToLower, Decimal;
  }

  /** Lower case moves the capital letters to the small ones and leaves every other character. */
  lemma LowerMovesCapitals(s: string, i: nat)
    requires i < |s|
    ensures var c := ToLower(s)[i];
            if 'A' <= s[i] <= 'Z' then c as int == s[i] as int + 32 && 'a' <= c <= 'z' else c == s[i]
  {
    hide ToLower;
  }

  // ---------------------------------------------------------------- numbers

  function Value(s: string): int {
    if s == "" then 0 else Value(s[..|s| - 1]) * 10 + (s[|s| - 1] as int - '0' as int)
  }

  lemma {:induction false} DecimalReads(n: nat)
    ensures Value(Decimal(n)) == n
  {
    var s := Decimal(n);
    if n < 10 {
      assert s[..0] == "";
    } else {
      DecimalReads(n / 10);
      assert s[..|s| - 1] == Decimal(n / 10);
    }
  }

  lemma {:induction false} DecimalHasNoSlash(n: nat)
    ensures '/' !in Decimal(n)
  {
    if n >= 10 {
      DecimalHasNoSlash(n / 10);
    }
  }

  // ---------------------------------------------------------------- injectivity

  lemma FirstSlashAt(a: string, x: string)
    requires '/' !in a
    ensures var s := a + ("/" + x);
            s[|a|] == '/' && (forall i :: 0 <= i < |a| ==> s[i] != '/') && s[..|a|] == a && s[|a| + 1..] == x
  {
  }

  lemma FirstSlash(a: string, x: string, b: string, y: string)
    requires '/' !in a && '/' !in b && a + ("/" + x) == b + ("/" + y)
    ensures a == b && x == y
  {
    FirstSlashAt(a, x);
    FirstSlashAt(b, y);
    assert |a| == |b|;
  }

  lemma LastSlashAt(a: string, x: string)
    requires '/' !in x
    ensures var s := a + ("/" + x);
            s[|a|] == '/' && (forall i :: |a| < i < |s| ==> s[i] != '/') && s[..|a|] == a && s[|a| + 1..] == x
  {
  }

  lemma LastSlash(a: string, x: string, b: string, y: string)
    requires '/' !in x && '/' !in y && a + ("/" + x) == b + ("/" + y)
    ensures a == b && x == y
  {
    LastSlashAt(a, x);
    LastSlashAt(b, y);
    assert |a| == |b|;
  }

  /** A file path names its host, session and file. */
  lemma FilePathInjective(h1: string, s1: string, f1: string, h2: string, s2: string, f2: string)
    requires '/' !in h1 && '/' !in h2 && '/' !in f1 && '/' !in f2
    requires FilePath(h1, s1, f1) == FilePath(h2, s2, f2)
    ensures h1 == h2 && s1 == s2 && f1 == f2
  {
    var x, y := h1 + ("/" + (s1 + ("/" + f1))), h2 + ("/" + (s2 + ("/" + f2)));
    assert (ROOT + x)[|ROOT|..] == x && (ROOT + y)[|ROOT|..] == y;
    FirstSlash(h1, s1 + ("/" + f1), h2, s2 + ("/" + f2));
    LastSlash(s1, f1, s2, f2);
  }

  lemma DeltaFileIsPlain(n: nat)
    ensures '/' !in DeltaFile(n) && '/' !in INDEX_FILE && DeltaFile(n) != INDEX_FILE
  {
    hide Decimal;
    DecimalHasNoSlash(n);
    assert DeltaFile(n)[0] == 'd' && INDEX_FILE[0] == 'i';
  }

  lemma DeltaFileInjective(n: nat, m: nat)
    requires DeltaFile(n) == DeltaFile(m)
    ensures n == m
  {
    hide Decimal;
    var a, b := DeltaFile(n), DeltaFile(m);
    assert a[6..] == Decimal(n) + ".json" && b[6..] == Decimal(m) + ".json";
    assert a[6..][..|a| - 11] == Decimal(n) && b[6..][..|b| - 11] == Decimal(m);
    DecimalReads(n);
    DecimalReads(m);
  }

  /** Index and delta paths of all sessions and numbers are pairwise different. */
  lemma PathsApart(host: string, s1: string, n: nat, s2: string, m: nat)
    requires '/' !in host && ToLower(host) == host
    ensures IndexPath(host, s1) != DeltaPath(host, s2, m)
    ensures IndexPath(host, s1) == IndexPath(host, s2) ==> s1 == s2
    ensures DeltaPath(host, s1, n) == DeltaPath(host, s2, m) ==> s1 == s2 && n == m
  {
    hide FilePath, ToLower, DeltaFile;
    DeltaFileIsPlain(n);
    DeltaFileIsPlain(m);
    if IndexPath(host, s1) == IndexPath(host, s2) {
      FilePathInjective(host, s1, INDEX_FILE, host, s2, INDEX_FILE);
    }
    if DeltaPath(host, s1, n) == DeltaPath(host, s2, m) {
      FilePathInjective(host, s1, DeltaFile(n), host, s2, DeltaFile(m));
      DeltaFileInjective(n, m);
    }
    IndexIsNoDelta(host, s1, s2, m);
  }

  lemma IndexIsNoDelta(host: string, s1: string, s2: string, m: nat)
    requires '/' !in host && ToLower(host) == host
    ensures IndexPath(host, s1) != DeltaPath(host, s2, m)
  {
    hide FilePath, ToLower, DeltaFile;
    DeltaFileIsPlain(m);
    assert FilePath(host, s1, INDEX_FILE) == FilePath(host, s2, DeltaFile(m)) ==> INDEX_FILE == DeltaFile(m) by {
      if FilePath(host, s1, INDEX_FILE) == FilePath(host, s2, DeltaFile(m)) {
        FilePathInjective(host, s1, INDEX_FILE, host, s2, DeltaFile(m));
      }
    }
  }
}
