/** Which variables name which paths, and which values are read as integers. */
module EnvironmentNames {
  import opened JsonValues
  import opened Config
  import opened ConfigTheorems

  // ---------- Names ----------

  predicate NoCapitals(s: string) {
    forall k :: 0 <= k < |s| ==> !('A' <= s[k] <= 'Z')
  }

  /** The same text, with some of its letters written as capitals. */
  predicate SpelledAs(s: string, plain: string) {
    |s| == |plain| && forall k :: 0 <= k < |s| ==>
      s[k] == plain[k] || ('a' <= plain[k] <= 'z' && s[k] as int == plain[k] as int - 32)
  }

  lemma {:induction false} LoweredIff(s: string, plain: string)
    ensures Lower(s) == plain <==> NoCapitals(plain) && SpelledAs(s, plain)
  {
    if NoCapitals(plain) && SpelledAs(s, plain) {
      forall k | 0 <= k < |s| ensures Lower(s)[k] == plain[k] {
      }
    }
  }

  /** A path of at least two parts that some name can be split into. */
  predicate Nameable(path: seq<string>) {
    |path| >= 2 && Separable(path) && NoCapitals(Joined(path))
  }

  /** A variable overrides a path exactly when its name is the prefix and then the path's parts joined by the delimiter,
      in any mix of cases. */
  lemma {:induction false} NamesPathIff(v: Variable, path: seq<string>)
    requires path != []
    ensures ParseVariable(v).Some? && ParseVariable(v).value.path == path <==>
            Nameable(path) && |v.name| >= 8 && v.name[..8] == "GATEWAY_" && SpelledAs(v.name[8..], Joined(path))
  {
    if |v.name| >= 8 && v.name[..8] == "GATEWAY_" {
      var rest := Lower(v.name[8..]);
      LoweredIff(v.name[8..], Joined(path));
      JoinedSplit(rest);
      NameSplitsIff(path);
      assert PREFIX <= v.name;
    } else {
      assert |PREFIX| == 8;
    }
  }

  // ---------- Digits ----------

  predicate Digit(c: char) {
    '0' <= c <= '9'
  }

  /** How a number is written. */
  function Show(n: nat): (s: string)
    ensures s != "" && forall k :: 0 <= k < |s| ==> Digit(s[k])
  {
    if n < 10 then [n as char + '0'] else Show(n / 10) + [(n % 10) as char + '0']
  }

  lemma {:induction false} ShownIsRead(n: nat)
    ensures Digits(Show(n)) == Some(n)
  {
    if n >= 10 {
      ShownIsRead(n / 10);
      var s := Show(n);
      assert Init(s) == Show(n / 10) && Digit(Last(Init(s))) && Last(s) as int - '0' as int == n % 10;
    }
  }

  /** Digits with single underscores between two of them. */
  predicate Grouped(s: string) {
    && s != "" && Digit(s[0]) && Digit(Last(s)) && !HasDelimiter(s)
    && forall k :: 0 <= k < |s| ==> Digit(s[k]) || s[k] == '_'
  }

  function Shorter(s: string): string
    requires |s| > 1
  {
    if Last(Init(s)) == '_' then Init(Init(s)) else Init(s)
  }

  lemma {:induction false} GroupedStep(s: string)
    requires |s| > 1 && Digit(Last(s))
    ensures Grouped(s) <==> Grouped(Shorter(s))
  {
    var cut := Shorter(s);
    assert forall k :: 0 <= k < |cut| ==> cut[k] == s[k];
    assert HasDelimiter(cut) ==> HasDelimiter(s);
    assert cut != "" && Digit(Last(cut)) && HasDelimiter(s) ==> HasDelimiter(cut);
  }

  lemma {:induction false} DigitsReadIff(s: string)
    ensures Digits(s).Some? <==> Grouped(s)
    decreases |s|
  {
    if |s| > 1 && Digit(Last(s)) {
      GroupedStep(s);
      DigitsReadIff(Shorter(s));
    }
  }

  function Ungrouped(s: string): string {
    if s == "" then "" else Ungrouped(Init(s)) + if Last(s) == '_' then "" else [Last(s)]
  }

  /** Underscores do not count. */
  lemma {:induction false} UnderscoresDoNotCount(s: string)
    requires Grouped(s)
    ensures Digits(Ungrouped(s)) == Digits(s)
    decreases |s|
  {
    DigitsReadIff(s);
    if |s| > 1 {
      var cut := Shorter(s);
      GroupedStep(s);
      UnderscoresDoNotCount(cut);
      UngroupedStep(s);
      UngroupedIsDigits(cut);
      assert Init(Ungrouped(s)) == Ungrouped(cut) && Last(Ungrouped(s)) == Last(s);
    } else {
      assert Init(s) == "" && Ungrouped(s) == "" + [Last(s)] && "" + [Last(s)] == s;
    }
  }

  lemma {:induction false} UngroupedStep(s: string)
    requires |s| > 1 && Digit(Last(s))
    ensures Ungrouped(s) == Ungrouped(Shorter(s)) + [Last(s)]
  {
    if Last(Init(s)) == '_' {
      assert Ungrouped(Init(s)) == Ungrouped(Init(Init(s))) + "";
    }
  }

  lemma {:induction false} UngroupedIsDigits(s: string)
    requires Grouped(s)
    ensures Ungrouped(s) != "" && Last(Ungrouped(s)) != '_'
  {
  }

  lemma {:induction false} ZeroInFront(s: string)
    requires |s| > 1
    ensures |"0" + s| > 1 && Last("0" + s) == Last(s) && Shorter("0" + s) == "0" + Shorter(s)
  {
    var long := "0" + s;
    assert Init(long) == "0" + Init(s) && Last(Init(long)) == Last(Init(s));
    assert Init("0" + Init(s)) == "0" + Init(Init(s));
  }

  lemma {:induction false} DigitsStep(s: string)
    requires |s| > 1 && Digit(Last(s))
    ensures Digits(s) == match Digits(Shorter(s))
                         case None => None
                         case Some(n) => Some(10 * n + (Last(s) as int - '0' as int))
  {
  }

  /** Neither do leading zeros. */
  lemma {:induction false} LeadingZeroDoesNotCount(s: string)
    requires Grouped(s)
    ensures Digits("0" + s) == Digits(s)
    decreases |s|
  {
    if |s| > 1 {
      GroupedStep(s);
      LeadingZeroDoesNotCount(Shorter(s));
      ZeroInFront(s);
      DigitsStep(s);
      DigitsStep("0" + s);
    } else {
      assert Init("0" + s) == "0" && Init("0") == "";
      assert Digits("0") == Some(0);
      DigitsStep("0" + s);
    }
  }

  // ---------- Values ----------

  predicate Blank(c: char) {
    c == ' ' || c == '\t' || c == '\n' || c == '\U{0B}' || c == '\U{0C}' || c == '\r'
  }

  predicate AllBlank(s: string) {
    forall k :: 0 <= k < |s| ==> Blank(s[k])
  }

  /** Neither end is blank. */
  predicate Tight(s: string) {
    s != "" ==> !Blank(s[0]) && !Blank(Last(s))
  }

  lemma {:induction false} CoreIsLeft(left: string, core: string, right: string)
    requires AllBlank(left) && AllBlank(right) && Tight(core) && core != ""
    ensures Trimmed(left + core + right) == core
    decreases |left| + |right|
  {
    var whole := left + core + right;
    if left != "" {
      assert Blank(left[0]) && whole[0] == left[0] && whole[1..] == left[1..] + core + right;
      CoreIsLeft(left[1..], core, right);
    } else if right != "" {
      assert whole[0] == core[0] && Last(whole) == Last(right) && Init(whole) == left + core + Init(right);
      assert Blank(right[|right| - 1]);
      CoreIsLeft(left, core, Init(right));
    } else {
      assert whole == core;
    }
  }

  /** Every text is blanks, a tight core and blanks. */
  lemma {:induction false} HasCore(text: string) returns (left: string, right: string)
    ensures AllBlank(left) && AllBlank(right) && Tight(Trimmed(text)) && left + Trimmed(text) + right == text
    decreases |text|
  {
    left, right := "", "";
    if text != "" && Space(text[0]) {
      left, right := HasCore(text[1..]);
      left := [text[0]] + left;
    } else if text != "" && Space(Last(text)) {
      left, right := HasCore(Init(text));
      right := right + [Last(text)];
    }
  }

  /** A sign and grouped digits. */
  predicate IntegerText(core: string) {
    core != "" && if core[0] == '+' || core[0] == '-' then Grouped(core[1..]) else Grouped(core)
  }

  /** A value is read as an integer exactly when it is one between blanks, and otherwise kept as it is. */
  lemma {:induction false} ReadAsIntegerIff(left: string, core: string, right: string)
    requires AllBlank(left) && AllBlank(right) && Tight(core) && core != ""
    ensures var text := left + core + right;
            if IntegerText(core) then ParseValue(text).Num? else ParseValue(text) == Str(text)
  {
    CoreIsLeft(left, core, right);
    if core[0] == '+' || core[0] == '-' {
      DigitsReadIff(core[1..]);
    } else {
      DigitsReadIff(core);
    }
  }

  /** A blank value is kept. */
  lemma {:induction false} BlankIsKept(text: string)
    requires AllBlank(text)
    ensures ParseValue(text) == Str(text)
  {
    var left, right := HasCore(text);
    assert forall k :: 0 <= k < |Trimmed(text)| ==> text[|left| + k] == Trimmed(text)[k];
  }

  /** Every integer is read back from how it is written, with a sign or without. */
  lemma {:induction false} IntegersAreRead(left: string, n: nat, right: string)
    requires AllBlank(left) && AllBlank(right)
    ensures ParseValue(left + Show(n) + right) == Num(n)
    ensures ParseValue(left + ("+" + Show(n)) + right) == Num(n)
    ensures ParseValue(left + ("-" + Show(n)) + right) == Num(0 - n)
  {
    var shown := Show(n);
    ShownIsRead(n);
    CoreIsLeft(left, shown, right);
    assert Last("+" + shown) == Last(shown) && Last("-" + shown) == Last(shown);
    assert ("+" + shown)[1..] == shown && ("-" + shown)[1..] == shown;
    CoreIsLeft(left, "+" + shown, right);
    CoreIsLeft(left, "-" + shown, right);
  }
}
