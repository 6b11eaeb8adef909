/** Making a host's name one path component, and what the platforms make of the result. */
module FileNames {
  import opened Text

  predicate Reserved(c: char) {
    c < ' ' || c in "<>:\"/\\|?*"
  }

  function Replaced(s: string): (r: string)
    ensures forall i :: 0 <= i < |r| ==> !Reserved(r[i])
  {
    if s == "" then "" else [if Reserved(s[0]) then '_' else s[0]] + Replaced(s[1..])
  }

  /** strings.TrimRight with a dot and a space. */
  function TrimDots(s: string): (r: string)
    ensures r <= s && (r != "" ==> r[|r| - 1] != '.' && r[|r| - 1] != ' ')
  {
    if s != "" && (s[|s| - 1] == '.' || s[|s| - 1] == ' ') then TrimDots(s[..|s| - 1]) else s
  }

  /** The part before the first dot. */
  function Stem(s: string): string {
    if s == "" || s[0] == '.' then "" else [s[0]] + Stem(s[1..])
  }

  /** Upper case where it can matter for a device name: no character beyond ASCII has one of their
      letters as its upper case. */
  function Upper(s: string): string {
    seq(|s|, i requires 0 <= i < |s| => if 'a' <= s[i] <= 'z' then ((s[i] as int) - 32) as char else s[i])
  }

  predicate Device(stem: string) {
    stem in {"CON", "PRN", "AUX", "NUL"}
    || (|stem| == 4 && (stem[..3] == "COM" || stem[..3] == "LPT") && '1' <= stem[3] <= '9')
  }

  function SafeFileName(name: string): string {
    var out := TrimDots(Replaced(name));
    if out == "" then "_"
    else if Device(Upper(Stem(out))) then "_" + out
    else out
  }

  /** A nonempty path component with no reserved character and no dot or space at its end, whose part
      before the first dot is none of the listed device names. */
  predicate Cleaned(s: string) {
    && s != "" && (forall i :: 0 <= i < |s| ==> !Reserved(s[i]))
    && s[|s| - 1] != '.' && s[|s| - 1] != ' '
    && !Device(Upper(Stem(s)))
  }

  /** No device name has a hyphen or an underscore. */
  lemma NoDevice(s: string, i: nat)
    requires i < |s| && (s[i] == '-' || s[i] == '_')
    ensures !Device(Upper(s))
  {
    var u := Upper(s);
    assert u[i] == s[i];
    if |u| == 4 && i < 3 { assert u[..3][i] == s[i]; }
  }

  lemma UnderscoreStem(t: string)
    ensures !Device(Upper(Stem("_" + t)))
  {
    hide Device, Upper;
    var s := "_" + t;
    assert s[1..] == t && Stem(s) == "_" + Stem(t);
    NoDevice(Stem(s), 0);
  }

  lemma SafeIsCleaned(name: string)
    ensures Cleaned(SafeFileName(name))
  {
    hide Device, Upper, Replaced, TrimDots, Stem;
    var out := TrimDots(Replaced(name));
    UnderscoreStem(out);
    assert "_" + "" == "_";
    var s := "_" + out;
    assert forall i :: 0 < i < |s| ==> s[i] == out[i - 1];
  }

  lemma {:induction false} StemAppend(s: string, t: string)
    ensures Stem(s + t) == if '.' in s then Stem(s) else s + Stem(t)
    decreases |s|
  {
    if s == "" {
      assert s + t == t;
    } else {
      assert (s + t)[1..] == s[1..] + t && (s + t)[0] == s[0];
      StemAppend(s[1..], t);
      assert s == [s[0]] + s[1..];
      if s[0] != '.' && '.' !in s { assert [s[0]] + (s[1..] + Stem(t)) == s + Stem(t); }
    }
  }

  lemma SuffixStem(base: string, d: string)
    requires !Device(Upper(Stem(base))) && d != "" && d[0] == '-'
    ensures !Device(Upper(Stem(base + d)))
  {
    hide Device, Upper;
    StemAppend(base, d);
    if '.' !in base {
      assert Stem(d) == "-" + Stem(d[1..]);
      NoDevice(Stem(base + d), |base|);
    }
  }

  /** A hyphen and digits keep a cleaned name cleaned. */
  lemma SuffixKeepsCleaned(base: string, k: nat)
    requires Cleaned(base)
    ensures Cleaned(base + "-" + Decimal(k))
  {
    hide Device, Upper, Decimal, Stem;
    var d := "-" + Decimal(k);
    assert base + "-" + Decimal(k) == base + d;
    SuffixStem(base, d);
    SuffixChars(base, d);
  }

  lemma SuffixChars(base: string, d: string)
    requires forall i :: 0 <= i < |base| ==> !Reserved(base[i])
    requires |d| > 1 && d[0] == '-' && forall i :: 0 < i < |d| ==> '0' <= d[i] <= '9'
    ensures forall i :: 0 <= i < |base + d| ==> !Reserved((base + d)[i])
    ensures (base + d)[|base + d| - 1] == d[|d| - 1]
  {
    assert forall i :: |base| <= i < |base + d| ==> (base + d)[i] == d[i - |base|];
  }

  // ---- the platforms ----

  /** A component POSIX systems take as an ordinary name, its length aside. */
  predicate PosixName(s: string) {
    s != "" && s != "." && s != ".." && '/' !in s && '\0' !in s
  }

  lemma CleanedOnPosix(s: string)
    requires Cleaned(s)
    ensures PosixName(s)
  {
  }

  function DropSpaces(s: string): string {
    if s != "" && s[|s| - 1] == ' ' then DropSpaces(s[..|s| - 1]) else s
  }

  /** The names Windows keeps for devices: the console ones and superscript digits included. */
  predicate WindowsDeviceName(t: string) {
    || t in {"CON", "PRN", "AUX", "NUL", "CONIN$", "CONOUT$"}
    || (|t| == 4 && t[..3] in {"COM", "LPT"} && t[3] in "123456789\U{B9}\U{B2}\U{B3}")
  }

  /** Windows looks at the part before the first dot, without the spaces at its end, in any case. */
  predicate WindowsDevice(s: string) {
    WindowsDeviceName(DropSpaces(Upper(Stem(s))))
  }

  /** The characters Windows has no place for in a name. */
  predicate WindowsReserved(c: char) {
    (c as int) < 32 || c in {'<', '>', ':', '"', '/', '\\', '|', '?', '*'}
  }

  /** A component Windows takes as an ordinary name, its length aside. */
  predicate WindowsName(s: string) {
    && s != "" && (forall i :: 0 <= i < |s| ==> !WindowsReserved(s[i]))
    && s[|s| - 1] != '.' && s[|s| - 1] != ' '
    && !WindowsDevice(s)
  }

  /** The device names the list lacks: with a space behind them, the console's, and those with a
      superscript digit. */
  predicate Unlisted(stem: string) {
    || (stem != "" && stem[|stem| - 1] == ' ' && WindowsDeviceName(DropSpaces(stem)))
    || stem in {"CONIN$", "CONOUT$"}
    || (|stem| == 4 && stem[..3] in {"COM", "LPT"} && stem[3] in "\U{B9}\U{B2}\U{B3}")
  }

  /** The upper-case stem the list of device names is compared with. */
  function ComparedStem(name: string): string {
    Upper(Stem(TrimDots(Replaced(name))))
  }

  lemma ListedOrUnlisted(t: string)
    ensures WindowsDeviceName(DropSpaces(t)) <==> Device(t) || Unlisted(t)
    ensures Device(t) ==> !Unlisted(t)
  {
    if t != "" && t[|t| - 1] == ' ' { assert !Device(t); }
  }

  lemma NoWindowsDevice(s: string, i: nat)
    requires i < |s| && (s[i] == '-' || s[i] == '_') && s[|s| - 1] != ' '
    ensures !WindowsDeviceName(DropSpaces(Upper(s)))
  {
    NoDevice(s, i);
    var u := Upper(s);
    assert u[i] == s[i];
    if |u| == 4 && i < 3 { assert u[..3][i] == s[i]; }
  }

  /** SafeFileName gives Windows an ordinary name exactly when the stem it compares is no device name
      its list lacks. */
  lemma SafeOnWindows(name: string)
    ensures WindowsName(SafeFileName(name)) <==> !Unlisted(ComparedStem(name))
  {
    hide Upper, Replaced, TrimDots, Stem, Unlisted, Device, WindowsDeviceName, DropSpaces;
    var out := TrimDots(Replaced(name));
    SafeIsCleaned(name);
    ListedOrUnlisted(Upper(Stem(out)));
    if out == "" {
      EmptyStem();
    } else if Device(Upper(Stem(out))) {
      ListedOrUnlisted(Upper(Stem("_" + out)));
      PrefixedIsNoDevice(out);
    }
  }

  lemma EmptyStem()
    ensures !Unlisted(Upper(Stem(""))) && !WindowsDevice("_")
  {
    assert Stem("_") == "_" by { assert "_"[1..] == ""; }
    NoWindowsDevice("_", 0);
  }

  lemma PrefixedIsNoDevice(s: string)
    requires Device(Upper(Stem(s)))
    ensures !WindowsDevice("_" + s)
  {
    var t := "_" + s;
    assert t[1..] == s && Stem(t) == "_" + Stem(s);
    var u, d := Upper(Stem(t)), Upper(Stem(s));
    assert |d| == |Stem(s)| >= 3 && d[|d| - 1] != ' ';
    assert Stem(t)[|Stem(t)| - 1] == Stem(s)[|Stem(s)| - 1];
    NoWindowsDevice(Stem(t), 0);
  }

  /** A hyphen and digits behind a stem without a dot make it no device name; behind a dot they change
      nothing. */
  lemma SuffixOnWindows(base: string, k: nat)
    requires Cleaned(base)
    ensures WindowsName(base + "-" + Decimal(k)) <==> '.' !in base || WindowsName(base)
  {
    hide Upper, DropSpaces, WindowsDeviceName, Decimal, Stem, Device;
    var d := "-" + Decimal(k);
    assert base + "-" + Decimal(k) == base + d;
    SuffixChars(base, d);
    SuffixedDevice(base, d);
  }

  lemma SuffixedDevice(base: string, d: string)
    requires |d| > 1 && d[0] == '-' && '.' !in d && d[|d| - 1] != ' '
    ensures WindowsDevice(base + d) <==> '.' in base && WindowsDevice(base)
  {
    hide Upper, DropSpaces, WindowsDeviceName;
    StemAppend(base, d);
    NoDots(d);
    if '.' !in base {
      assert (base + d)[|base|] == '-' && (base + d)[|base + d| - 1] == d[|d| - 1];
      NoWindowsDevice(base + d, |base|);
    }
  }

  lemma {:induction false} NoDots(s: string)
    requires '.' !in s
    ensures Stem(s) == s
    decreases |s|
  {
    if s != "" { NoDots(s[1..]); }
  }

  /** "CON .txt" passes the list and is the console to Windows. */
  lemma ConWithSpace()
    ensures Unlisted(ComparedStem("CON .txt")) && !WindowsName(SafeFileName("CON .txt"))
  {
    var s, stem := "CON .txt", "CON ";
    ConStem();
    ConDevice();
    hide Upper, Replaced, TrimDots, Stem, DropSpaces, SafeFileName, WindowsName;
    SafeOnWindows(s);
  }

  lemma ConStem()
    ensures Stem(TrimDots(Replaced("CON .txt"))) == "CON "
  {
    hide Stem, Replaced;
    var s, stem := "CON .txt", "CON ";
    ReplacesNothing(s);
    NoDots(stem);
    StemAppend(stem, ".txt");
    assert s == stem + ".txt" && stem + "" == stem;
    NoStem();
  }

  lemma NoStem()
    ensures Stem(".txt") == ""
  {
  }

  lemma ConDevice()
    ensures Unlisted(Upper("CON "))
  {
    var stem := "CON ";
    assert Upper(stem) == stem && stem[..3] == "CON";
  }

  lemma {:induction false} ReplacesNothing(s: string)
    requires forall i :: 0 <= i < |s| ==> !Reserved(s[i])
    ensures Replaced(s) == s
    decreases |s|
  {
    if s != "" { ReplacesNothing(s[1..]); }
  }

  // ---- what is changed and what is not ----

  lemma {:induction false} ReplacedAt(s: string, i: nat)
    requires i < |s|
    ensures |Replaced(s)| == |s| && Replaced(s)[i] == if WindowsReserved(s[i]) then '_' else s[i]
    decreases |s|
  {
    ReplacedLength(s);
    if i > 0 { ReplacedAt(s[1..], i - 1); }
  }

  lemma {:induction false} ReplacedLength(s: string)
    ensures |Replaced(s)| == |s|
    decreases |s|
  {
    if s != "" { ReplacedLength(s[1..]); }
  }

  lemma {:induction false} TrimmedOff(s: string, i: nat)
    requires |TrimDots(s)| <= i < |s|
    ensures s[i] == '.' || s[i] == ' '
    decreases |s|
  {
    if i < |s| - 1 { TrimmedOff(s[..|s| - 1], i); }
  }

  /** The devices of the code's list, in capitals. */
  ghost predicate Listed(t: string) {
    t in {"CON", "PRN", "AUX", "NUL"} || exists n: nat :: 1 <= n <= 9 && t in {"COM" + Decimal(n), "LPT" + Decimal(n)}
  }

  /** s is t, letters of either case. */
  predicate InAnyCase(s: string, t: string) {
    |s| == |t| && forall i :: 0 <= i < |s| ==>
      s[i] == t[i] || ('A' <= t[i] <= 'Z' && (s[i] as int) == (t[i] as int) + 32)
  }

  lemma DeviceIsListed(t: string)
    ensures Device(t) <==> Listed(t)
    ensures Listed(t) ==> forall i :: 0 <= i < |t| ==> 'A' <= t[i] <= 'Z' || '1' <= t[i] <= '9'
  {
    if |t| == 4 && '1' <= t[3] <= '9' {
      var n: nat := t[3] as int - '0' as int;
      assert t == t[..3] + Decimal(n) && 1 <= n <= 9;
    }
    if n: nat :| 1 <= n <= 9 && t in {"COM" + Decimal(n), "LPT" + Decimal(n)} {
      assert Decimal(n) == [Digit(n)] && t[3] == Digit(n);
    }
  }

  lemma DeviceInAnyCase(stem: string)
    ensures Device(Upper(stem)) <==> exists t :: Listed(t) && InAnyCase(stem, t)
  {
    var u := Upper(stem);
    DeviceIsListed(u);
    if Listed(u) { assert InAnyCase(stem, u); }
    if t :| Listed(t) && InAnyCase(stem, t) {
      DeviceIsListed(t);
      assert forall i :: 0 <= i < |u| ==> u[i] == t[i];
      assert u == t;
    }
  }

  /** What SafeFileName does to a name of n characters kept: reserved ones become underscores, only dots and
      spaces are cut off its end, and an underscore goes in front of nothing but a device name of the list,
      in any case, that stands before the first dot. */
  ghost predicate IsSafeFor(name: string, r: string, out: string) {
    && |out| <= |name|
    && (forall i :: 0 <= i < |out| ==> out[i] == if WindowsReserved(name[i]) then '_' else name[i])
    && (forall i :: |out| <= i < |name| ==> name[i] == '.' || name[i] == ' ')
    && (out != "" ==> out[|out| - 1] != '.' && out[|out| - 1] != ' ')
    && r == (if out == "" || exists t :: Listed(t) && InAnyCase(Stem(out), t) then "_" + out else out)
  }

  lemma SafeExactly(name: string)
    ensures exists out :: IsSafeFor(name, SafeFileName(name), out)
  {
    hide Stem, Upper, Device, Replaced, TrimDots, Listed, InAnyCase;
    var w, out := Replaced(name), TrimDots(Replaced(name));
    ReplacedLength(name);
    DeviceInAnyCase(Stem(out));
    forall i | 0 <= i < |out| ensures out[i] == if WindowsReserved(name[i]) then '_' else name[i] {
      ReplacedAt(name, i);
    }
    forall i | |out| <= i < |name| ensures name[i] == '.' || name[i] == ' ' {
      TrimmedOff(w, i);
      ReplacedAt(name, i);
    }
    assert "_" + "" == "_";
    assert IsSafeFor(name, SafeFileName(name), out);
  }

  /** A cleaned name stays as it is, so cleaning twice is cleaning once. */
  lemma CleanedStays(s: string)
    requires Cleaned(s)
    ensures SafeFileName(s) == s
  {
    ReplacesNothing(s);
  }

  /** No name is too long for it: names of any length stay as they are. */
  lemma AnyLengthStays(n: nat)
    requires n > 4
    ensures var s := seq(n, i => 'a'); SafeFileName(s) == s
  {
    var s := seq(n, i => 'a');
    ReplacesNothing(s);
    NoDots(s);
  }
}
