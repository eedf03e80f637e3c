/**
 CoreNet names and the values nodes exchange (pkg/protocol/protocol.go).

 Strings are sequences of characters. Lower-casing and trimming are the ASCII
 parts of Go's: a character outside ASCII is left alone, and no name that
 contains one is ever valid.
 */
module Protocol {
  import opened Results
  import opened Strings

  /** The CoreNet namespace. */
  const TLD := "core"

  const SourceConfig := "config"
  const SourceRuntime := "runtime"
  const SourceDocker := "docker"

  datatype Service = Service(name: string, address: string, port: int, source: string)

  /** A name several Docker containers claim. The reason's text is kept as the data it is printed from. */
  datatype Conflict = Conflict(name: string, owners: seq<string>)

  function ServiceName(s: Service): string { s.name }
  function ConflictName(c: Conflict): string { c.name }

  // ---------------------------------------------------------- normalization

  predicate IsSpace(c: char) {
    c == ' ' || 9 <= c as int <= 13
  }

  function LowerChar(c: char): char {
    if 'A' <= c <= 'Z' then (c as int + 32) as char else c
  }

  function ToLower(s: string): (r: string)
    ensures |r| == |s|
  {
    seq(|s|, i requires 0 <= i < |s| => LowerChar(s[i]))
  }

  function TrimLeft(s: string): string {
    if s != "" && IsSpace(s[0]) then TrimLeft(s[1..]) else s
  }

  function TrimRight(s: string): string {
    if s != "" && IsSpace(s[|s| - 1]) then TrimRight(s[..|s| - 1]) else s
  }

  function TrimSpace(s: string): string { TrimRight(TrimLeft(s)) }

  function TrimDot(s: string): string {
    if s != "" && s[|s| - 1] == '.' then s[..|s| - 1] else s
  }

  /** The key a name is stored and looked up under. */
  function NormalizeName(name: string): string {
    ToLower(TrimDot(TrimSpace(name)))
  }

  // ------------------------------------------------------------- validation

  datatype LabelError = EmptyLabel | TooLong | EdgeHyphen | BadCharacter

  datatype NameError = EmptyName | NotNormalized | OutsideNamespace | BadLabel(text: string, cause: LabelError)

  predicate LabelChar(c: char) {
    'a' <= c <= 'z' || '0' <= c <= '9' || c == '-'
  }

  function ValidateLabel(l: string): Option<LabelError> {
    if l == "" then Some(EmptyLabel)
    else if |l| > 63 then Some(TooLong)
    else if l[0] == '-' || l[|l| - 1] == '-' then Some(EdgeHyphen)
    else if exists c <- l :: !LabelChar(c) then Some(BadCharacter)
    else None
  }

  /** The first label that fails, as the loop in ValidateName finds it. */
  function FirstBadLabel(labels: seq<string>): Option<NameError> {
    if labels == [] then None
    else match ValidateLabel(labels[0])
      case Some(cause) => Some(BadLabel(labels[0], cause))
      case None => FirstBadLabel(labels[1..])
  }

  /** The first fault of a name, in the order they are looked for, or None. */
  function ValidateName(name: string): Option<NameError> {
    if name == "" then Some(EmptyName)
    else if name != NormalizeName(name) then Some(NotNormalized)
    else
      var labels := SplitDots(name);
      if |labels| < 2 || labels[|labels| - 1] != TLD then Some(OutsideNamespace)
      else FirstBadLabel(labels)
  }

  predicate Valid(name: string) { ValidateName(name) == None }

  // ------------------------------------------------------------ the grammar

  /** A host label: section 2.3.4 of RFC 1035, leading digits as in section 2.1 of RFC 1123. */
  predicate IsLabel(l: string) {
    && 1 <= |l| <= 63
    && (forall c <- l :: LabelChar(c))
    && l[0] != '-' && l[|l| - 1] != '-'
  }

  /** At least two labels, the last being "core". */
  predicate IsLabelList(labels: seq<string>) {
    && |labels| >= 2
    && labels[|labels| - 1] == TLD
    && (forall l <- labels :: IsLabel(l))
  }

  /** The names of the namespace: label lists joined by dots. */
  ghost predicate InGrammar(name: string) {
    exists labels :: IsLabelList(labels) && JoinDots(labels) == name
  }

  lemma {:induction false} FirstBadLabelNone(labels: seq<string>)
    ensures FirstBadLabel(labels) == None <==> forall l <- labels :: IsLabel(l)
  {
    if labels != [] {
      FirstBadLabelNone(labels[1..]);
      assert labels == [labels[0]] + labels[1..];
      assert labels[0] in labels;
    }
  }

  lemma LabelHasNoDot(l: string)
    requires IsLabel(l)
    ensures '.' !in l
  {}

  /** Characters no trimming or lower-casing touches. */
  predicate Plain(c: char) { LabelChar(c) || c == '.' }

  lemma {:induction false} JoinPlain(labels: seq<string>)
    requires |labels| >= 1
    requires forall l <- labels :: IsLabel(l)
    ensures JoinDots(labels) != ""
    ensures forall c <- JoinDots(labels) :: Plain(c)
    ensures LabelChar(JoinDots(labels)[|JoinDots(labels)| - 1])
  {
    assert labels[0] in labels;
    if |labels| > 1 {
      JoinPlain(labels[1..]);
      var rest := JoinDots(labels[1..]);
      assert JoinDots(labels)[|JoinDots(labels)| - 1] == rest[|rest| - 1];
    } else {
      assert labels[0][|labels[0]| - 1] in labels[0];
    }
  }

  /** A name of plain characters that ends in one of a label's is its own normal form. */
  lemma PlainIsNormal(name: string)
    requires name != ""
    requires forall c <- name :: Plain(c)
    requires LabelChar(name[|name| - 1])
    ensures NormalizeName(name) == name
  {
    assert name[0] in name;
    assert TrimLeft(name) == name && TrimRight(name) == name;
    assert forall i | 0 <= i < |name| :: name[i] in name;
    assert ToLower(name) == name;
  }

  /** The grammar alone already implies the normal form, so ValidateName's explicit check is implied. */
  lemma GrammarIsNormal(name: string)
    requires InGrammar(name)
    ensures NormalizeName(name) == name
  {
    var labels :| IsLabelList(labels) && JoinDots(labels) == name;
    JoinPlain(labels);
    PlainIsNormal(name);
  }

  /** ValidateName accepts exactly the grammar. */
  lemma ValidIffGrammar(name: string)
    ensures Valid(name) <==> InGrammar(name)
  {
    var split := SplitDots(name);
    JoinSplit(name);
    FirstBadLabelNone(split);
    if InGrammar(name) {
      GrammarIsNormal(name);
      var labels :| IsLabelList(labels) && JoinDots(labels) == name;
      JoinPlain(labels);
      forall l <- labels ensures '.' !in l { LabelHasNoDot(l); }
      SplitJoin(labels);
    }
    if Valid(name) {
      assert IsLabelList(split) && JoinDots(split) == name;
    }
  }

  /** On valid names splitting and joining undo each other: a name has one list of labels. */
  lemma LabelsAreUnique(a: seq<string>, b: seq<string>)
    requires IsLabelList(a) && IsLabelList(b)
    requires JoinDots(a) == JoinDots(b)
    ensures a == b == SplitDots(JoinDots(a))
  {
    forall l <- a ensures '.' !in l { LabelHasNoDot(l); }
    forall l <- b ensures '.' !in l { LabelHasNoDot(l); }
    SplitJoin(a);
    SplitJoin(b);
  }

  /** The shortest kind of name there is. */
  lemma ShortNameIsValid()
    ensures Valid("w.core")
  {
    var labels := ["w", TLD];
    assert labels[1..] == [TLD];
    assert JoinDots(labels) == "w" + "." + JoinDots(labels[1..]) == "w.core";
    assert IsLabelList(labels);
    ValidIffGrammar("w.core");
  }

  lemma ValidIsNormal(name: string)
    requires Valid(name)
    ensures NormalizeName(name) == name
  {}

  /** The loop reports the first label that is not one, with what is wrong with it. */
  lemma {:induction false} FirstBadLabelIsFirst(labels: seq<string>, i: nat)
    requires i < |labels| && !IsLabel(labels[i]) && forall j :: 0 <= j < i ==> IsLabel(labels[j])
    ensures ValidateLabel(labels[i]).Some?
    ensures FirstBadLabel(labels) == Some(BadLabel(labels[i], ValidateLabel(labels[i]).value))
  {
    if i > 0 {
      assert IsLabel(labels[0]);
      FirstBadLabelIsFirst(labels[1..], i - 1);
    }
  }

  // --------------------------------------------- how far NormalizeName goes

  lemma {:induction false} TrimLeftTrims(s: string)
    ensures TrimLeft(s) == "" || !IsSpace(TrimLeft(s)[0])
    ensures !(s != "" && IsSpace(s[0])) ==> TrimLeft(s) == s
  {
    if s != "" && IsSpace(s[0]) { TrimLeftTrims(s[1..]); }
  }

  lemma {:induction false} TrimRightTrims(s: string)
    ensures TrimRight(s) <= s
    ensures TrimRight(s) == "" || !IsSpace(TrimRight(s)[|TrimRight(s)| - 1])
  {
    if s != "" && IsSpace(s[|s| - 1]) { TrimRightTrims(s[..|s| - 1]); }
  }

  /** NormalizeName is not idempotent: only one trailing dot is removed. */
  lemma NormalizeNotIdempotent()
    ensures NormalizeName("a..") == "a."
    ensures NormalizeName(NormalizeName("a..")) == "a"
  {
    assert TrimSpace("a..") == "a..";
    assert TrimDot("a..") == "a.";
    assert NormalizeName("a..") == "a.";
    assert TrimSpace("a.") == "a.";
    assert TrimDot("a.") == "a";
    assert NormalizeName("a.") == "a";
  }

  /** What a second normalization would still strip. */
  predicate Ragged(name: string) {
    name != "" && (name[|name| - 1] == '.' || IsSpace(name[|name| - 1]))
  }

  lemma NormalStartsClean(name: string)
    ensures NormalizeName(name) == "" || !IsSpace(NormalizeName(name)[0])
    ensures forall c <- NormalizeName(name) :: LowerChar(c) == c
  {
    var l := TrimLeft(name);
    TrimLeftTrims(name);
    TrimRightTrims(l);
    var d := TrimDot(TrimSpace(name));
    assert d <= l;
    var n := NormalizeName(name);
    forall c <- n ensures LowerChar(c) == c {
      var i :| 0 <= i < |n| && n[i] == c;
      assert n[i] == LowerChar(d[i]);
    }
    if n != "" { assert n[0] == LowerChar(d[0]) && d[0] == l[0]; }
  }

  /** Normalizing twice equals normalizing once exactly when the result ends in neither a dot nor a space. */
  lemma NormalizeTwice(name: string)
    ensures NormalizeName(NormalizeName(name)) == NormalizeName(name) <==> !Ragged(NormalizeName(name))
  {
    var n := NormalizeName(name);
    NormalStartsClean(name);
    TrimLeftTrims(n);
    assert TrimLeft(n) == n;
    if Ragged(n) {
      TrimRightTrims(n);
      if IsSpace(n[|n| - 1]) { TrimRightTrims(n[..|n| - 1]); }
      assert |NormalizeName(n)| < |n|;
    } else {
      assert TrimSpace(n) == n && TrimDot(n) == n;
      assert forall i | 0 <= i < |n| :: n[i] in n;
      assert ToLower(n) == n;
    }
  }

  // ------------------------------------------------------ spellings of a name

  predicate AllSpace(s: string) { forall c <- s :: IsSpace(c) }

  lemma {:induction false} TrimLeftSplits(s: string)
    ensures exists a :: AllSpace(a) && s == a + TrimLeft(s)
  {
    if s != "" && IsSpace(s[0]) {
      TrimLeftSplits(s[1..]);
      var a :| AllSpace(a) && s[1..] == a + TrimLeft(s[1..]);
      assert AllSpace([s[0]] + a) && s == [s[0]] + a + TrimLeft(s);
    } else {
      assert AllSpace("") && s == "" + TrimLeft(s);
    }
  }

  lemma {:induction false} TrimRightSplits(s: string)
    ensures exists b :: AllSpace(b) && s == TrimRight(s) + b
  {
    if s != "" && IsSpace(s[|s| - 1]) {
      var init := s[..|s| - 1];
      TrimRightSplits(init);
      var b :| AllSpace(b) && init == TrimRight(init) + b;
      assert AllSpace(b + [s[|s| - 1]]) && s == TrimRight(s) + (b + [s[|s| - 1]]);
    } else {
      assert AllSpace("") && s == TrimRight(s) + "";
    }
  }

  lemma {:induction false} TrimLeftOf(a: string, s: string)
    requires AllSpace(a) && s != "" && !IsSpace(s[0])
    ensures TrimLeft(a + s) == s
  {
    if a == "" {
      assert a + s == s;
    } else {
      assert a[0] in a;
      assert (a + s)[1..] == a[1..] + s;
      TrimLeftOf(a[1..], s);
    }
  }

  lemma {:induction false} TrimRightOf(s: string, b: string)
    requires AllSpace(b) && s != "" && !IsSpace(s[|s| - 1])
    ensures TrimRight(s + b) == s
  {
    if b == "" {
      assert s + b == s;
    } else {
      assert b[|b| - 1] in b;
      assert (s + b)[..|s + b| - 1] == s + b[..|b| - 1];
      TrimRightOf(s, b[..|b| - 1]);
    }
  }

  /** Nothing but tabs, line feeds, vertical tabs, form feeds, carriage returns and spaces. */
  predicate Blank(s: string) {
    forall c <- s :: c as int == 9 || c as int == 10 || c as int == 11 || c as int == 12 || c as int == 13 || c as int == 32
  }

  /** The same letters, those of `s` in either case and those of `name` in lower case. */
  predicate SameLetters(s: string, name: string) {
    |s| == |name| &&
    forall i :: 0 <= i < |s| ==>
      if 'A' <= s[i] <= 'Z' then s[i] as int + 32 == name[i] as int else s[i] == name[i]
  }

  /** `q` is `name` in any letter case, with or without one trailing dot, among any blanks. */
  ghost predicate Spells(q: string, name: string) {
    exists a, core, dot, b ::
      Blank(a) && Blank(b) && SameLetters(core, name) && dot in ["", "."] && q == a + core + dot + b
  }

  lemma BlankIsSpace(s: string)
    ensures Blank(s) <==> AllSpace(s)
  {
    assert forall c: char :: IsSpace(c) <==>
      c as int == 9 || c as int == 10 || c as int == 11 || c as int == 12 || c as int == 13 || c as int == 32;
  }

  lemma LettersAreLower(s: string, name: string)
    ensures SameLetters(s, name) <==> ToLower(s) == name
  {
    if |s| == |name| {
      assert ToLower(s) == name <==> forall i :: 0 <= i < |s| ==> ToLower(s)[i] == name[i];
      forall i | 0 <= i < |s|
        ensures (if 'A' <= s[i] <= 'Z' then s[i] as int + 32 == name[i] as int else s[i] == name[i]) <==> ToLower(s)[i] == name[i]
      {
        assert ToLower(s)[i] == LowerChar(s[i]);
      }
    }
  }

  lemma ValidEnds(name: string)
    requires Valid(name)
    ensures name != "" && Plain(name[0]) && LabelChar(name[|name| - 1])
  {
    ValidIffGrammar(name);
    hide ValidateName, NormalizeName;
    var labels :| IsLabelList(labels) && JoinDots(labels) == name;
    JoinPlain(labels);
    assert name[0] in name;
  }

  /** A string that lower-cases to a valid name has nothing at either end to trim. */
  lemma EndsOfSpelling(core: string)
    requires Valid(ToLower(core))
    ensures core != "" && !IsSpace(core[0]) && !IsSpace(core[|core| - 1]) && core[|core| - 1] != '.'
  {
    var name := ToLower(core);
    ValidEnds(name);
    assert name[0] == LowerChar(core[0]) && name[|name| - 1] == LowerChar(core[|core| - 1]);
    hide ValidateName, NormalizeName;
  }

  lemma TrimSpaceOf(a: string, t: string, b: string)
    requires AllSpace(a) && AllSpace(b) && t != "" && !IsSpace(t[0]) && !IsSpace(t[|t| - 1])
    ensures TrimSpace(a + t + b) == t
  {
    hide AllSpace, IsSpace, TrimLeft, TrimRight;
    assert a + t + b == a + (t + b);
    TrimLeftOf(a, t + b);
    TrimRightOf(t, b);
  }

  lemma SpellingNormalizes(a: string, core: string, dot: string, b: string)
    requires AllSpace(a) && AllSpace(b) && dot in ["", "."] && Valid(ToLower(core))
    ensures NormalizeName(a + core + dot + b) == ToLower(core)
  {
    EndsOfSpelling(core);
    hide ValidateName, ToLower, TrimSpace, AllSpace;
    var t := core + dot;
    assert t[0] == core[0] && TrimDot(t) == core;
    assert t[|t| - 1] == if dot == "" then core[|core| - 1] else '.';
    TrimSpaceOf(a, t, b);
    assert a + core + dot + b == a + t + b;
  }

  lemma TrimDotSplits(t: string)
    ensures exists dot :: dot in ["", "."] && t == TrimDot(t) + dot
  {
    var dot := if t != "" && t[|t| - 1] == '.' then "." else "";
    assert dot in ["", "."] && t == TrimDot(t) + dot;
  }

  lemma EveryStringSpellsItsNormalForm(q: string)
    ensures Spells(q, NormalizeName(q))
  {
    hide ToLower, TrimDot, AllSpace, TrimLeft, TrimRight, IsSpace;
    TrimLeftSplits(q);
    TrimRightSplits(TrimLeft(q));
    var a :| AllSpace(a) && q == a + TrimLeft(q);
    var b :| AllSpace(b) && TrimLeft(q) == TrimSpace(q) + b;
    var t := TrimSpace(q);
    var core := TrimDot(t);
    TrimDotSplits(t);
    var dot :| dot in ["", "."] && t == core + dot;
    BlankIsSpace(a);
    BlankIsSpace(b);
    LettersAreLower(core, NormalizeName(q));
    hide NormalizeName, Blank, SameLetters;
    assert Blank(a) && Blank(b) && SameLetters(core, NormalizeName(q)) && q == a + core + dot + b;
  }

  /** Exactly the spellings of a valid name normalize to it. */
  lemma NormalizesIffSpells(q: string, name: string)
    requires Valid(name)
    ensures NormalizeName(q) == name <==> Spells(q, name)
  {
    hide NormalizeName, ValidateName, ToLower, AllSpace, Blank, SameLetters;
    EveryStringSpellsItsNormalForm(q);
    if Spells(q, name) {
      var a, core, dot, b :|
        Blank(a) && Blank(b) && SameLetters(core, name) && dot in ["", "."] && q == a + core + dot + b;
      BlankIsSpace(a);
      BlankIsSpace(b);
      LettersAreLower(core, name);
      SpellingNormalizes(a, core, dot, b);
    }
  }

  // ----------------------------------------------------- acceptable services

  predicate ValidPort(port: int) { 1 <= port <= 65535 }

  /** What every writer of the directory but the configuration demands of a service. */
  predicate Acceptable(s: Service) {
    Valid(s.name) && s.address != "" && ValidPort(s.port)
  }

  // --------------------------------------------------------- DNS's own test

  /** dns.isCoreName: the suffix test the DNS server applies. */
  predicate IsCoreName(name: string) {
    |name| > |TLD| + 1 && name[|name| - (|TLD| + 1)..] == "." + TLD
  }

  lemma {:induction false} JoinEndsInLast(labels: seq<string>)
    requires |labels| >= 2
    ensures |JoinDots(labels)| >= |labels[0]| + 1 + |labels[|labels| - 1]|
    ensures var n := JoinDots(labels); var l := labels[|labels| - 1]; n[|n| - |l| - 1..] == "." + l
  {
    var n, l, rest := JoinDots(labels), labels[|labels| - 1], JoinDots(labels[1..]);
    assert n == labels[0] + "." + rest;
    if |labels| == 2 {
      assert rest == l;
    } else {
      JoinEndsInLast(labels[1..]);
      assert n[|n| - |l| - 1..] == rest[|rest| - |l| - 1..];
    }
  }

  /** No valid name is refused by the DNS server's suffix test. */
  lemma ValidIsCoreName(name: string)
    requires Valid(name)
    ensures IsCoreName(name)
  {
    ValidIffGrammar(name);
    var labels :| IsLabelList(labels) && JoinDots(labels) == name;
    assert labels[0] in labels;
    JoinEndsInLast(labels);
  }

  // ------------------------------------------------ names, character by character

  /** The characters of a host name. */
  predicate HostChar(c: char) { 'a' <= c <= 'z' || '0' <= c <= '9' || c == '-' || c == '.' }

  /**
   A list of labels joined by dots, said of the characters alone: host
   characters, no hyphen or dot at either end, none after a dot, no hyphen before
   one, and a dot in every 64 characters.
   */
  predicate LooksJoined(s: string) {
    && s != "" && (forall i :: 0 <= i < |s| ==> HostChar(s[i]))
    && s[0] != '-' && s[0] != '.' && s[|s| - 1] != '-' && s[|s| - 1] != '.'
    && (forall i, j :: 0 <= i && j == i + 1 < |s| && s[i] == '.' ==> s[j] != '.' && s[j] != '-')
    && (forall i, j :: 0 <= i && j == i + 1 < |s| && s[j] == '.' ==> s[i] != '-')
    && (forall i :: 0 <= i <= |s| - 64 ==> HasDot(s, i))
  }

  predicate HasDot(s: string, i: int)
    requires 0 <= i <= |s| - 64
  {
    exists k :: i <= k < i + 64 && s[k] == '.'
  }

  lemma LabelLooksJoined(l: string)
    requires '.' !in l
    ensures LooksJoined(l) <==> IsLabel(l)
  {
    assert forall i | 0 <= i < |l| :: l[i] in l;
    if |l| >= 64 { assert !HasDot(l, 0); }
  }

  lemma JoinedLooksJoined(l: string, rest: string)
    requires '.' !in l
    ensures LooksJoined(l + "." + rest) <==> IsLabel(l) && LooksJoined(rest)
  {
    assert forall i | 0 <= i < |l| :: l[i] in l;
    if LooksJoined(l + "." + rest) { SplitsApart(l, rest); }
    if IsLabel(l) && LooksJoined(rest) { PutTogether(l, rest); }
  }

  lemma SplitsApart(l: string, rest: string)
    requires '.' !in l && LooksJoined(l + "." + rest)
    ensures IsLabel(l) && LooksJoined(rest)
  {
    FirstPart(l, rest);
    LastPart(l, rest);
  }

  lemma FirstPart(l: string, rest: string)
    requires '.' !in l && LooksJoined(l + "." + rest)
    ensures IsLabel(l)
  {
    var s, n := l + "." + rest, |l|;
    assert s[n] == '.';
    assert forall i | 0 <= i < n :: s[i] == l[i] && l[i] in l;
    assert l != "" && s[n - 1] == l[n - 1];
    assert n >= 64 ==> HasDot(s, 0);
    forall c <- l ensures LabelChar(c) {
      var i :| 0 <= i < n && l[i] == c;
      assert HostChar(s[i]);
    }
  }

  lemma LastPart(l: string, rest: string)
    requires LooksJoined(l + "." + rest)
    ensures LooksJoined(rest)
  {
    var s, n := l + "." + rest, |l|;
    assert s[n] == '.';
    assert forall i | 0 <= i < |rest| :: rest[i] == s[n + 1 + i];
    assert rest != "" && s[n + 1] == rest[0] && s[|s| - 1] == rest[|rest| - 1];
    forall i | 0 <= i < |rest| ensures HostChar(rest[i]) { assert HostChar(s[n + 1 + i]); }
    forall i, j | 0 <= i && j == i + 1 < |rest| && rest[i] == '.' ensures rest[j] != '.' && rest[j] != '-' {
      assert s[n + 1 + i] == '.' && s[n + 1 + j] == rest[j];
    }
    forall i, j | 0 <= i && j == i + 1 < |rest| && rest[j] == '.' ensures rest[i] != '-' {
      assert s[n + 1 + j] == '.' && s[n + 1 + i] == rest[i];
    }
    forall i | 0 <= i <= |rest| - 64 ensures HasDot(rest, i) {
      assert HasDot(s, n + 1 + i);
      var k :| n + 1 + i <= k < n + 1 + i + 64 && s[k] == '.';
      assert rest[k - n - 1] == '.';
    }
  }

  lemma PutTogether(l: string, rest: string)
    requires IsLabel(l) && '.' !in l && LooksJoined(rest)
    ensures LooksJoined(l + "." + rest)
  {
    var s, n := l + "." + rest, |l|;
    assert s[n] == '.';
    assert forall i | 0 <= i < n :: s[i] == l[i] && l[i] in l;
    assert forall i | n < i < |s| :: s[i] == rest[i - n - 1];
    forall i | 0 <= i <= |s| - 64 ensures HasDot(s, i) {
      if i <= n {
        assert s[n] == '.';
      } else {
        assert HasDot(rest, i - n - 1);
        var k :| i - n - 1 <= k < i - n - 1 + 64 && rest[k] == '.';
        assert s[n + 1 + k] == '.';
      }
    }
  }

  lemma {:induction false} JoinLooksJoined(labels: seq<string>)
    requires |labels| >= 1 && forall l <- labels :: '.' !in l
    ensures LooksJoined(JoinDots(labels)) <==> forall l <- labels :: IsLabel(l)
  {
    assert labels[0] in labels;
    assert labels == [labels[0]] + labels[1..];
    hide LooksJoined, IsLabel;
    if |labels| == 1 {
      LabelLooksJoined(labels[0]);
    } else {
      JoinLooksJoined(labels[1..]);
      JoinedLooksJoined(labels[0], JoinDots(labels[1..]));
    }
  }

  /** The last of several labels joined by dots is "core" exactly when the name ends in ".core". */
  lemma EndsInCoreIff(labels: seq<string>)
    requires |labels| >= 1 && forall l <- labels :: '.' !in l
    ensures |labels| >= 2 && labels[|labels| - 1] == "core" <==>
              var n := JoinDots(labels); |n| >= 5 && n[|n| - 5..] == ".core"
  {
    var n, l := JoinDots(labels), labels[|labels| - 1];
    assert l in labels;
    if |labels| >= 2 {
      JoinEndsInLast(labels);
      hide JoinDots;
      TailIsCoreIff(n, l);
    } else {
      assert n == l;
      DotInIfCore(n);
    }
  }

  lemma DotInIfCore(n: string)
    ensures |n| >= 5 && n[|n| - 5..] == ".core" ==> '.' in n
  {
    if |n| >= 5 && n[|n| - 5..] == ".core" { DotBeforeCore(n); }
  }

  lemma TailIsCoreIff(n: string, l: string)
    requires '.' !in l && |n| >= |l| + 1 && n[|n| - |l| - 1..] == "." + l
    ensures l == "core" <==> |n| >= 5 && n[|n| - 5..] == ".core"
  {
    var k := |n| - |l| - 1;
    assert n[k] == n[k..][0] == '.';
    assert n[k..][1..] == n[k + 1..] == l;
    if l == "core" { assert "." + l == ".core"; }
    if |n| >= 5 && n[|n| - 5..] == ".core" {
      DotBeforeCore(n);
      DotAtOrAfter(n, k);
      assert k == |n| - 5;
    }
  }

  lemma DotAtOrAfter(n: string, k: nat)
    requires |n| >= 5 && n[|n| - 5..] == ".core" && k < |n| && n[k] == '.'
    ensures k <= |n| - 5
    ensures k < |n| - 5 ==> '.' in n[k + 1..]
  {
    DotBeforeCore(n);
    if k < |n| - 5 { assert n[k + 1..][|n| - 5 - k - 1] == '.'; }
  }

  /** The last five characters, one by one. */
  lemma DotBeforeCore(n: string)
    requires |n| >= 5 && n[|n| - 5..] == ".core"
    ensures n[|n| - 5] == '.' && n[|n| - 4] != '.' && n[|n| - 3] != '.' && n[|n| - 2] != '.' && n[|n| - 1] != '.'
    ensures n[|n| - 4..] == "core"
  {
    var t := n[|n| - 5..];
    assert n[|n| - 5] == t[0] && n[|n| - 4] == t[1] && n[|n| - 3] == t[2] && n[|n| - 2] == t[3] && n[|n| - 1] == t[4];
    assert n[|n| - 4..] == t[1..];
  }

  /**
   What a usable name is, read off its characters: host characters ending in
   ".core", no hyphen or dot at the start, none after a dot, no hyphen before
   one, and never 64 characters in a row without a dot.
   */
  lemma ValidIffCharacters(name: string)
    ensures Valid(name) <==>
              && |name| >= 5 && name[|name| - 5..] == ".core"
              && (forall c <- name :: 'a' <= c <= 'z' || '0' <= c <= '9' || c == '-' || c == '.')
              && name[0] != '-' && name[0] != '.'
              && (forall i, j :: 0 <= i && j == i + 1 < |name| && name[i] == '.' ==> name[j] != '.' && name[j] != '-')
              && (forall i, j :: 0 <= i && j == i + 1 < |name| && name[j] == '.' ==> name[i] != '-')
              && (forall i :: 0 <= i <= |name| - 64 ==> HasDot(name, i))
  {
    var labels := SplitDots(name);
    JoinSplit(name);
    JoinLooksJoined(labels);
    EndsInCoreIff(labels);
    ValidIffLabels(name);
    assert TLD == "core";
    if |name| >= 5 && name[|name| - 5..] == ".core" { CoreEndsPlainly(name); }
    hide ValidateName, NormalizeName, IsLabel, SplitDots, JoinDots, HasDot;
    assert (forall c <- name :: HostChar(c)) <==> forall i :: 0 <= i < |name| ==> HostChar(name[i]);
  }

  lemma CoreEndsPlainly(name: string)
    requires |name| >= 5 && name[|name| - 5..] == ".core"
    ensures name[|name| - 1] == 'e'
  {
    assert name[|name| - 1] == name[|name| - 5..][4];
  }

  lemma ValidIffLabels(name: string)
    ensures var labels := SplitDots(name);
            Valid(name) <==> |labels| >= 2 && labels[|labels| - 1] == TLD && forall l <- labels :: IsLabel(l)
  {
    ValidIffGrammar(name);
    JoinSplit(name);
    hide ValidateName, NormalizeName, IsLabel, SplitDots, JoinDots;
    var labels := SplitDots(name);
    if InGrammar(name) {
      var ls :| IsLabelList(ls) && JoinDots(ls) == name;
      LabelsAreUnique(ls, ls);
    }
  }

  /** Which fault a label has: exactly one of four, or none. */
  lemma LabelFault(l: string)
    ensures match ValidateLabel(l)
            case Some(EmptyLabel) => |l| == 0
            case Some(TooLong) => |l| > 63
            case Some(EdgeHyphen) => 1 <= |l| <= 63 && (l[0] == '-' || l[|l| - 1] == '-')
            case Some(BadCharacter) =>
              && 1 <= |l| <= 63 && l[0] != '-' && l[|l| - 1] != '-'
              && exists c <- l :: !('a' <= c <= 'z' || '0' <= c <= '9' || c == '-')
            case None =>
              && 1 <= |l| <= 63 && l[0] != '-' && l[|l| - 1] != '-'
              && forall c <- l :: 'a' <= c <= 'z' || '0' <= c <= '9' || c == '-'
  {}

  predicate EndsInCore(name: string) { |name| >= 5 && name[|name| - 5..] == ".core" }

  /** Which fault a name has: the name is told apart before its namespace, and that before its labels. */
  lemma NameFault(name: string)
    ensures match ValidateName(name)
            case Some(EmptyName) => name == ""
            case Some(NotNormalized) => name != "" && NormalizeName(name) != name
            case Some(OutsideNamespace) => name != "" && NormalizeName(name) == name && !EndsInCore(name)
            case Some(BadLabel(l, cause)) =>
              && NormalizeName(name) == name && EndsInCore(name)
              && l in SplitDots(name) && ValidateLabel(l) == Some(cause)
            case None => NormalizeName(name) == name && EndsInCore(name)
  {
    var labels := SplitDots(name);
    JoinSplit(name);
    EndsInCoreIff(labels);
    assert EndsInCore(name) <==> |labels| >= 2 && labels[|labels| - 1] == TLD;
    FirstBadLabelListed(labels);
    hide NormalizeName, ValidateLabel, SplitDots, JoinDots, FirstBadLabel, EndsInCore;
  }

  lemma {:induction false} FirstBadLabelListed(labels: seq<string>)
    ensures match FirstBadLabel(labels)
            case None => true
            case Some(BadLabel(l, cause)) => l in labels && ValidateLabel(l) == Some(cause)
            case Some(_) => false
  {
    if labels != [] { FirstBadLabelListed(labels[1..]); }
  }

  /** The suffix test, character by character. */
  lemma CoreNameIff(name: string)
    ensures IsCoreName(name) <==> |name| >= 6 && name[|name| - 5..] == ".core"
  {
    assert "." + TLD == ".core";
  }

  /** A name that a second normalization would still change passes neither test. */
  lemma RaggedIsRefused(name: string)
    requires Ragged(name)
    ensures !IsCoreName(name)
    ensures NormalizeName(name) != name && !Valid(name)
  {
    var t := TrimSpace(name);
    TrimRightTrims(TrimLeft(name));
    TrimLeftShortens(name);
    if IsCoreName(name) { assert name[|name| - 1] == ("." + TLD)[|TLD|]; }
    if !IsSpace(name[|name| - 1]) { assert |t| < |name| || t == name; }
    if t == name { assert |NormalizeName(name)| < |name|; }
  }

  lemma {:induction false} TrimLeftShortens(s: string)
    ensures |TrimLeft(s)| <= |s|
    ensures |TrimLeft(s)| == |s| ==> TrimLeft(s) == s
  {
    if s != "" && IsSpace(s[0]) { TrimLeftShortens(s[1..]); }
  }
}
