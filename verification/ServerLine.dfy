/** The configuration line that names a backend server: a cursor moves over the text of the
    line, and the documented form of the line is read back exactly. */
module ServerLines {
  import opened Records

  datatype ServerLine = ServerLine(host: string, port: int, weight: int, maxConnections: int)

  const TAG := "server:"
  const NUL: char := '\0'

  // ----- numbers in text -----

  predicate IsDigit(c: char) { '0' <= c <= '9' }

  predicate IsSpace(c: char) { c == ' ' || '\t' <= c <= '\r' }

  function DigitValue(c: char): nat
    requires IsDigit(c)
  {
    c as int - '0' as int
  }

  /** Leading digits of `s`, appended to the number `acc`. */
  function Digits(s: string, acc: nat): nat
    decreases |s|
  {
    if s == "" || !IsDigit(s[0]) then acc else Digits(s[1..], 10 * acc + DigitValue(s[0]))
  }

  /** The C library's atoi, on numbers that fit. */
  function Atoi(s: string): int
    decreases |s|
  {
    if s == "" then 0
    else if IsSpace(s[0]) then Atoi(s[1..])
    else if s[0] == '-' then 0 - Digits(s[1..], 0)
    else if s[0] == '+' then Digits(s[1..], 0)
    else Digits(s, 0)
  }

  function Decimal(n: nat): (s: string)
    ensures s != "" && forall i :: 0 <= i < |s| ==> IsDigit(s[i])
  {
    var last := ('0' as int + n % 10) as char;
    if n < 10 then [last] else Decimal(n / 10) + [last]
  }

  lemma {:induction false} DigitsThrough(a: string, b: string, acc: nat)
    requires forall i :: 0 <= i < |a| ==> IsDigit(a[i])
    ensures Digits(a + b, acc) == Digits(b, Digits(a, acc))
    decreases |a|
  {
    if a == "" {
      assert a + b == b;
    } else {
      assert (a + b)[1..] == a[1..] + b;
      DigitsThrough(a[1..], b, 10 * acc + DigitValue(a[0]));
    }
  }

  lemma {:induction false} DigitsOfDecimal(n: nat)
    ensures Digits(Decimal(n), 0) == n
  {
    var last := ('0' as int + n % 10) as char;
    if n < 10 {
      assert [last][1..] == "";
    } else {
      DigitsOfDecimal(n / 10);
      DigitsThrough(Decimal(n / 10), [last], 0);
      assert [last][1..] == "";
    }
  }

  /** A decimal number is read back from the front of a text. */
  lemma AtoiOfDecimal(n: nat, tail: string)
    requires tail == "" || !IsDigit(tail[0])
    ensures Atoi(Decimal(n) + tail) == n
  {
    DigitsThrough(Decimal(n), tail, 0);
    DigitsOfDecimal(n);
    assert IsDigit((Decimal(n) + tail)[0]);
  }

  /** It skips white space and takes one sign. */
  lemma AtoiSigned(n: nat)
    ensures Atoi("-" + Decimal(n)) == 0 - n && Atoi("+" + Decimal(n)) == n
    ensures forall c, s: string :: IsSpace(c) ==> Atoi([c] + s) == Atoi(s)
  {
    DigitsOfDecimal(n);
    assert ("-" + Decimal(n))[1..] == Decimal(n) && ("+" + Decimal(n))[1..] == Decimal(n);
    forall c, s: string | IsSpace(c) ensures Atoi([c] + s) == Atoi(s) {
      assert ([c] + s)[1..] == s;
    }
  }

  /** What is used of atoi: it reads a decimal number in front of anything that is not a
      digit, and nothing as zero. */
  ghost predicate ReadsDecimals(read: string -> int) {
    && read("") == 0
    && forall n: nat, tail: string {:trigger read(Decimal(n) + tail)} ::
         tail == "" || !IsDigit(tail[0]) ==> read(Decimal(n) + tail) == n
  }

  lemma AtoiReadsDecimals()
    ensures ReadsDecimals(Atoi)
  {
    forall n: nat, tail: string | tail == "" || !IsDigit(tail[0]) ensures Atoi(Decimal(n) + tail) == n {
      AtoiOfDecimal(n, tail);
    }
  }

  // ----- fields -----

  predicate EndsName(c: char) { c == ',' || c == ':' }

  predicate EndsField(c: char) { c == ',' || c == ' ' }

  predicate NotBlank(c: char) { c != ' ' && c != '\t' }

  /** The first place from `at` on where the text stops, or its end. */
  function Scan(line: string, at: nat, stops: char -> bool): (k: nat)
    requires at <= |line|
    ensures at <= k <= |line|
    ensures (forall i :: at <= i < k ==> !stops(line[i])) && (k < |line| ==> stops(line[k]))
    decreases |line| - at
  {
    if at == |line| || stops(line[at]) then at else Scan(line, at + 1, stops)
  }

  lemma ScanIs(line: string, at: nat, stops: char -> bool, k: nat)
    requires at <= k <= |line|
    requires (forall i :: at <= i < k ==> !stops(line[i])) && (k < |line| ==> stops(line[k]))
    ensures Scan(line, at, stops) == k
  {
    var m := Scan(line, at, stops);
    assert !(m < k) && !(k < m);
  }

  /** Where the next field starts, behind the separator that ends the current one. */
  function NextField(line: string, at: nat): (k: nat)
    requires at <= |line|
    ensures at <= k <= |line|
  {
    var k := Scan(line, at, EndsField);
    if k < |line| then k + 1 else k
  }

  /** Reading the numbers, with `read` for the library's atoi: the port, and after it the
      weight and the limit. */
  function ReadNumbers(host: string, line: string, at: nat, read: string -> int): ServerLine
    requires at <= |line|
  {
    var weight := NextField(line, if at < |line| then at + 1 else at);
    var limit := NextField(line, weight);
    ServerLine(host, read(line[at..]) % 0x1_0000, read(line[weight..]), read(line[limit..]))
  }

  /** Reading the line from behind the tag: none when the cursor leaves the text, which is
      when the name is not ended by a separator. */
  function ReadLine(line: string, at: nat, read: string -> int): Option<ServerLine>
    requires at <= |line|
  {
    var name := Scan(line, at, NotBlank);
    var k := Scan(line, name, EndsName);
    if k == |line| then None else Some(ReadNumbers(line[name..k], line, k + 1, read))
  }

  // ----- the cursor -----

  /** The character at the cursor; the text ends with a NUL. */
  function CharAt(line: string, h: nat): char
    requires h <= |line|
  {
    if h < |line| then line[h] else NUL
  }

  ghost predicate IsText(line: string) { forall i :: 0 <= i < |line| ==> line[i] != NUL }

  method SkipField(line: string, at: nat) returns (h: nat)
    requires IsText(line) && at <= |line|
    ensures h <= |line| && h == NextField(line, at)
  {
    h := at;
    while CharAt(line, h) != NUL && CharAt(line, h) != ',' && CharAt(line, h) != ' '
      invariant at <= h <= |line|
      invariant forall i :: at <= i < h ==> !EndsField(line[i])
      decreases |line| - h
    {
      h := h + 1;
    }
    ScanIs(line, at, EndsField, h);
    if CharAt(line, h) == ',' || CharAt(line, h) == ' ' {
      h := h + 1;
    }
  }

  method ParseNumbers(line: string, host: string, at: nat, read: string -> int) returns (r: ServerLine)
    requires IsText(line) && at <= |line|
    ensures r == ReadNumbers(host, line, at, read)
  {
    var h := at;
    var port := read(line[h..]) % 0x1_0000;
    if CharAt(line, h) != NUL {
      h := h + 1;
    }
    h := SkipField(line, h);
    var weight := read(line[h..]);
    h := SkipField(line, h);
    r := ServerLine(host, port, weight, read(line[h..]));
  }

  method SkipBlanks(line: string, start: nat) returns (h: nat)
    requires IsText(line) && start <= |line|
    ensures h == Scan(line, start, NotBlank)
  {
    h := start;
    while CharAt(line, h) == ' ' || CharAt(line, h) == '\t'
      invariant start <= h <= |line|
      invariant forall i :: start <= i < h ==> !NotBlank(line[i])
      decreases |line| - h
    {
      h := h + 1;
    }
    ScanIs(line, start, NotBlank, h);
  }

  method NameLength(line: string, h: nat) returns (i: nat)
    requires IsText(line) && h <= |line|
    ensures h + i == Scan(line, h, EndsName)
  {
    i := 0;
    while CharAt(line, h + i) != NUL && CharAt(line, h + i) != ',' && CharAt(line, h + i) != ':'
      invariant h + i <= |line|
      invariant forall j :: h <= j < h + i ==> !EndsName(line[j])
      decreases |line| - i
    {
      i := i + 1;
    }
    ScanIs(line, h, EndsName, h + i);
  }

  /** The cursor, which starts behind the tag, stays in the text; None is where the source
      would read past its end. */
  method ParseServerLine(line: string, start: nat, read: string -> int) returns (r: Option<ServerLine>)
    requires IsText(line) && start <= |line|
    ensures r == ReadLine(line, start, read)
  {
    var h := SkipBlanks(line, start);
    var i := NameLength(line, h);
    var host := line[h..h + i];
    BehindName(line, start, h, h + i, read);
    h := h + i;
    if CharAt(line, h) == NUL {
      r := None;
    } else {
      var numbers := ParseNumbers(line, host, h + 1, read);
      r := Some(numbers);
    }
  }

  lemma BehindName(line: string, at: nat, name: nat, k: nat, read: string -> int)
    requires at <= |line| && name == Scan(line, at, NotBlank) && k == Scan(line, name, EndsName)
    ensures ReadLine(line, at, read) ==
            if k == |line| then None else Some(ReadNumbers(line[name..k], line, k + 1, read))
  {
  }

  /** The cursor leaves the text exactly when no ',' or ':' follows the tag. */
  lemma OverrunExactly(line: string, at: nat, read: string -> int)
    requires at <= |line|
    ensures ReadLine(line, at, read) == None <==> forall i :: at <= i < |line| ==> !EndsName(line[i])
  {
    var name := Scan(line, at, NotBlank);
    assert forall i :: at <= i < name ==> !NotBlank(line[i]);
  }

  /** A bare host name behind the tag is such a line. */
  lemma BareHostOverruns(host: string, read: string -> int)
    requires forall i :: 0 <= i < |host| ==> !EndsName(host[i])
    ensures ReadLine(TAG + host, |TAG|, read) == None
  {
    OverrunExactly(TAG + host, |TAG|, read);
  }

  // ----- the documented form -----

  /** Optional weight and limit, the limit only after a weight, each behind a separator, which
      is documented as a comma. */
  datatype Extras = NoExtras | Weight(sep: char, w: nat) | WeightAndLimit(sep: char, w: nat, sep2: char, limit: nat)

  predicate IsSeparated(x: Extras) {
    (!x.NoExtras? ==> EndsField(x.sep)) && (x.WeightAndLimit? ==> EndsField(x.sep2))
  }

  function ExtrasText(x: Extras): string {
    match x
    case NoExtras => ""
    case Weight(sep, w) => [sep] + Decimal(w)
    case WeightAndLimit(sep, w, sep2, limit) => [sep] + (Decimal(w) + ([sep2] + Decimal(limit)))
  }

  function WeightOf(x: Extras): nat { if x.NoExtras? then 0 else x.w }

  function LimitOf(x: Extras): nat { if x.WeightAndLimit? then x.limit else 0 }

  ghost predicate IsHost(host: string) {
    (forall i :: 0 <= i < |host| ==> !EndsName(host[i])) && (host != "" ==> NotBlank(host[0]))
  }

  /** Spaces and tabs. */
  ghost predicate AreBlanks(blanks: string) { forall i :: 0 <= i < |blanks| ==> !NotBlank(blanks[i]) }

  /** The line, with a mark behind the host that is documented as a colon. */
  function ServerText(blanks: string, host: string, mark: char, port: nat, x: Extras): string {
    TAG + (blanks + (host + ([mark] + (Decimal(port) + ExtrasText(x)))))
  }

  /** At place `p` of the line the text `t` begins and runs to the end. */
  ghost predicate Runs(line: string, p: nat, t: string) { p <= |line| && line[p..] == t }

  lemma RunsOn(line: string, p: nat, a: string, b: string)
    requires Runs(line, p, a + b)
    ensures Runs(line, p + |a|, b)
    ensures forall i :: 0 <= i < |a| ==> line[p + i] == a[i]
  {
    assert forall i :: 0 <= i < |a| ==> line[p + i] == line[p..][i];
    assert line[p..][|a|..] == line[p + |a|..];
  }

  /** A number at place `p`, followed by nothing or by a separator. */
  lemma NumberAt(read: string -> int, line: string, p: nat, n: nat, tail: string)
    requires ReadsDecimals(read) && Runs(line, p, Decimal(n) + tail) && (tail == "" || EndsField(tail[0]))
    ensures p < |line| && read(line[p..]) == n && NextField(line, p) == NextField(line, p + 1)
    ensures Runs(line, NextField(line, p), if tail == "" then "" else tail[1..])
  {
    var d := Decimal(n);
    assert tail == "" || !IsDigit(tail[0]);
    assert read(d + tail) == n;
    RunsOn(line, p, d, tail);
    forall i | p <= i < p + |d| ensures !EndsField(line[i]) {
      assert IsDigit(d[i - p]);
    }
    assert tail != "" ==> line[p + |d|] == line[p + |d|..][0];
    ScanIs(line, p, EndsField, p + |d|);
    ScanIs(line, p + 1, EndsField, p + |d|);
    if tail != "" {
      assert line[p + |d| + 1..] == line[p + |d|..][1..];
    }
  }

  lemma NothingAt(read: string -> int, line: string, p: nat)
    requires ReadsDecimals(read) && Runs(line, p, "")
    ensures read(line[p..]) == 0 && NextField(line, p) == p
  {
    ScanIs(line, p, EndsField, p);
  }

  lemma WeightAt(read: string -> int, line: string, q: nat, x: Extras)
    requires ReadsDecimals(read) && !x.NoExtras? && IsSeparated(x) && Runs(line, q, ExtrasText(x)[1..])
    ensures read(line[q..]) == WeightOf(x) && read(line[NextField(line, q)..]) == LimitOf(x)
  {
    match x
    case Weight(_, w) =>
      assert ExtrasText(x)[1..] == Decimal(w) && Decimal(w) == Decimal(w) + "";
      NumberAt(read, line, q, w, "");
      NothingAt(read, line, NextField(line, q));
    case WeightAndLimit(_, _, _, _) =>
      LimitAt(read, line, q, x);
  }

  lemma LimitAt(read: string -> int, line: string, q: nat, x: Extras)
    requires ReadsDecimals(read) && x.WeightAndLimit? && IsSeparated(x) && Runs(line, q, ExtrasText(x)[1..])
    ensures read(line[q..]) == x.w && read(line[NextField(line, q)..]) == x.limit
  {
    var d, tail := Decimal(x.limit), [x.sep2] + Decimal(x.limit);
    assert ExtrasText(x)[1..] == Decimal(x.w) + tail;
    NumberAt(read, line, q, x.w, tail);
    assert tail[1..] == d && d == d + "";
    NumberAt(read, line, NextField(line, q), x.limit, "");
  }

  /** The three numbers found from place `p` on. */
  ghost predicate NumbersAt(read: string -> int, line: string, p: nat, port: nat, weight: nat, limit: nat) {
    && p < |line| && read(line[p..]) == port
    && var q := NextField(line, p + 1); read(line[q..]) == weight && read(line[NextField(line, q)..]) == limit
  }

  lemma NumbersRead(read: string -> int, line: string, p: nat, port: nat, x: Extras)
    requires ReadsDecimals(read) && IsSeparated(x) && Runs(line, p, Decimal(port) + ExtrasText(x))
    ensures NumbersAt(read, line, p, port, WeightOf(x), LimitOf(x))
  {
    NumberAt(read, line, p, port, ExtrasText(x));
    if x.NoExtras? {
      NothingAt(read, line, NextField(line, p));
    } else {
      WeightAt(read, line, NextField(line, p), x);
    }
  }

  lemma BlanksAt(line: string, p: nat, blanks: string, t: string)
    requires Runs(line, p, blanks + t) && AreBlanks(blanks) && t != "" && NotBlank(t[0])
    ensures Scan(line, p, NotBlank) == p + |blanks| && Runs(line, p + |blanks|, t)
  {
    RunsOn(line, p, blanks, t);
    assert line[p + |blanks|] == line[p + |blanks|..][0];
    forall i | p <= i < p + |blanks| ensures !NotBlank(line[i]) {
      assert line[p + (i - p)] == blanks[i - p];
    }
    ScanIs(line, p, NotBlank, p + |blanks|);
  }

  lemma HostAt(line: string, q: nat, host: string, rest: string)
    requires Runs(line, q, host + rest) && rest != "" && EndsName(rest[0]) && IsHost(host)
    ensures Scan(line, q, EndsName) == q + |host| < |line| && line[q..q + |host|] == host
    ensures Runs(line, q + |host| + 1, rest[1..])
  {
    RunsOn(line, q, host, rest);
    assert line[q + |host|] == line[q + |host|..][0];
    forall i | q <= i < q + |host| ensures !EndsName(line[i]) {
      assert line[q + (i - q)] == host[i - q];
    }
    ScanIs(line, q, EndsName, q + |host|);
    assert line[q + |host| + 1..] == line[q + |host|..][1..];
  }

  lemma NameRead(line: string, at: nat, blanks: string, host: string, numbers: string, rest: string, t: string)
    requires rest != "" && EndsName(rest[0]) && rest[1..] == numbers && t == host + rest
    requires Runs(line, at, blanks + t) && AreBlanks(blanks) && IsHost(host)
    ensures var name := at + |blanks|; var k := name + |host|;
            && Scan(line, at, NotBlank) == name && Scan(line, name, EndsName) == k < |line|
            && line[name..k] == host && Runs(line, k + 1, numbers)
  {
    assert t[0] == if host != "" then host[0] else rest[0];
    BlanksAt(line, at, blanks, t);
    HostAt(line, at + |blanks|, host, rest);
  }

  /** The name found behind place `at`, which ends at place `k`. */
  ghost predicate NameAt(line: string, at: nat, host: string, k: nat) {
    && at <= |line| && k == Scan(line, Scan(line, at, NotBlank), EndsName) < |line|
    && line[Scan(line, at, NotBlank)..k] == host
  }

  lemma NumbersAre(read: string -> int, line: string, p: nat, host: string, port: nat, x: Extras)
    requires ReadsDecimals(read) && IsSeparated(x) && Runs(line, p, Decimal(port) + ExtrasText(x))
    ensures ReadNumbers(host, line, p, read) == ServerLine(host, port % 0x1_0000, WeightOf(x), LimitOf(x))
  {
    NumbersRead(read, line, p, port, x);
  }

  /** Where the name ends in a documented line. */
  function NameEnd(blanks: string, host: string): nat { |TAG| + |blanks| + |host| }

  lemma TextIs(line: string, blanks: string, host: string, mark: char, numbers: string)
    requires AreBlanks(blanks) && IsHost(host) && EndsName(mark)
    requires line == TAG + (blanks + (host + ([mark] + numbers)))
    ensures TAG <= line && NameAt(line, |TAG|, host, NameEnd(blanks, host))
    ensures Runs(line, NameEnd(blanks, host) + 1, numbers)
  {
    var t := host + ([mark] + numbers);
    assert Runs(line, |TAG|, blanks + t);
    NameRead(line, |TAG|, blanks, host, numbers, [mark] + numbers, t);
  }

  /** The line is read back to these fields. */
  ghost predicate IsReadBack(read: string -> int, line: string, r: ServerLine) {
    TAG <= line && ReadLine(line, |TAG|, read) == Some(r)
  }

  lemma NamedReadBack(read: string -> int, line: string, host: string, k: nat, r: ServerLine)
    requires TAG <= line && NameAt(line, |TAG|, host, k) && ReadNumbers(host, line, k + 1, read) == r
    ensures IsReadBack(read, line, r)
  {
    BehindName(line, |TAG|, Scan(line, |TAG|, NotBlank), k, read);
  }

  /** Wherever a line ends in this text, these numbers are read from it. */
  ghost predicate ReadsAs(read: string -> int, numbers: string, port: int, weight: int, limit: int) {
    forall line: string, p: nat, host: string :: Runs(line, p, numbers) ==>
      ReadNumbers(host, line, p, read) == ServerLine(host, port, weight, limit)
  }

  lemma NumbersReadAs(read: string -> int, port: nat, x: Extras)
    requires ReadsDecimals(read) && IsSeparated(x)
    ensures ReadsAs(read, Decimal(port) + ExtrasText(x), port % 0x1_0000, WeightOf(x), LimitOf(x))
  {
    forall line: string, p: nat, host: string | Runs(line, p, Decimal(port) + ExtrasText(x))
      ensures ReadNumbers(host, line, p, read) == ServerLine(host, port % 0x1_0000, WeightOf(x), LimitOf(x))
    {
      NumbersAre(read, line, p, host, port, x);
    }
  }

  lemma TextReadBack(
    read: string -> int, line: string, blanks: string, host: string, mark: char, numbers: string, r: ServerLine)
    requires AreBlanks(blanks) && IsHost(host) && EndsName(mark)
    requires line == TAG + (blanks + (host + ([mark] + numbers)))
    requires ReadsAs(read, numbers, r.port, r.weight, r.maxConnections) && r.host == host
    ensures IsReadBack(read, line, r)
  {
    TextIs(line, blanks, host, mark, numbers);
    NamedReadBack(read, line, host, NameEnd(blanks, host), r);
  }

  /** Every documented line is read back: its host, port, weight and limit, the absent ones
      as zero. So is a line with other separators and blanks; of a port only the lower
      sixteen bits are kept. */
  lemma ServerTextIsRead(read: string -> int, blanks: string, host: string, mark: char, port: nat, x: Extras)
    requires ReadsDecimals(read) && AreBlanks(blanks) && IsHost(host) && EndsName(mark) && IsSeparated(x)
    ensures IsReadBack(read, ServerText(blanks, host, mark, port, x),
                       ServerLine(host, port % 0x1_0000, WeightOf(x), LimitOf(x)))
  {
    NumbersReadAs(read, port, x);
    TextReadBack(read, ServerText(blanks, host, mark, port, x), blanks, host, mark, Decimal(port) + ExtrasText(x),
                 ServerLine(host, port % 0x1_0000, WeightOf(x), LimitOf(x)));
  }

  /** The characters that count as blanks, marks and separators. */
  lemma WhichCharacters(c: char)
    ensures AreBlanks([c]) <==> c == ' ' || c == '\t'
    ensures EndsName(c) <==> c == ':' || c == ','
    ensures EndsField(c) <==> c == ',' || c == ' '
  {
    var one := [c];
    assert one[0] == c;
  }

}
