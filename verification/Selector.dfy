/** `kubeforkctl`'s label options: `<key>`, `!<key>`, `<key>=<value>` and `<key>!=<value>`,
    read by counting the parts that splitting yields. */
module Selector {
  import opened Text
  import opened Kube

  // ---------------------------------------------------------------- splitting, described

  function Occurrences(s: string, c: char): nat {
    multiset(s)[c]
  }

  /** How often `!=` stands in `s`. */
  function NotEquals(s: string): nat {
    if |s| < 2 then 0 else (if s[0] == '!' && s[1] == '=' then 1 else 0) + NotEquals(s[1..])
  }

  lemma HeadAndTail(s: string, c: char)
    requires s != ""
    ensures Occurrences(s, c) == (if s[0] == c then 1 else 0) + Occurrences(s[1..], c)
  {
    assert s == [s[0]] + s[1..];
  }

  lemma {:induction false} LacksMeansNone(s: string, c: char)
    ensures Lacks(s, c) <==> Occurrences(s, c) == 0
  {
    if s != "" {
      HeadAndTail(s, c);
      LacksMeansNone(s[1..], c);
    }
  }

  lemma {:induction false} CountSplit(a: string, b: string, c: char)
    requires Lacks(a, c)
    ensures Occurrences(a + [c] + b, c) == 1 + Occurrences(b, c)
  {
    LacksMeansNone(a, c);
  }

  /** A separator of one character: one part more than it occurs. */
  lemma {:induction false} PartsByCharacter(s: string, c: char)
    ensures |Split(s, [c])| == 1 + Occurrences(s, c)
    decreases |s|
  {
    var i := IndexOf(s, [c]);
    FirstIndex(s, [c]);
    if i < 0 {
      forall j | 0 <= j < |s| ensures s[j] != c { assert !([c] <= s[j..]); }
      LacksMeansNone(s, c);
    } else {
      forall j | 0 <= j < i ensures s[j] != c { assert !([c] <= s[j..]); }
      CountSplit(s[..i], s[i + 1..], c);
      assert s == s[..i] + [c] + s[i + 1..];
      PartsByCharacter(s[i + 1..], c);
    }
  }

  lemma StartsWithNotEqual(s: string)
    ensures "!=" <= s <==> |s| >= 2 && s[0] == '!' && s[1] == '='
  {
    assert |s| >= 2 ==> s == [s[0]] + [s[1]] + s[2..];
  }

  lemma {:induction false} NotEqualsAfter(s: string, i: nat)
    requires i <= |s| && forall j :: 0 <= j < i ==> !("!=" <= s[j..])
    ensures NotEquals(s) == NotEquals(s[i..])
  {
    if i > 0 {
      assert !("!=" <= s[0..]) && s[0..] == s;
      StartsWithNotEqual(s);
      assert forall j :: 1 <= j <= |s| ==> s[j..] == s[1..][j - 1..];
      forall j | 0 <= j < i - 1 ensures !("!=" <= s[1..][j..]) { assert s[1..][j..] == s[j + 1..]; }
      NotEqualsAfter(s[1..], i - 1);
    }
  }

  lemma {:induction false} PartsByNotEquals(s: string)
    ensures |Split(s, "!=")| == 1 + NotEquals(s)
    decreases |s|
  {
    var i := IndexOf(s, "!=");
    FirstIndex(s, "!=");
    if i < 0 {
      NotEqualsAfter(s, |s|);
    } else {
      NotEqualsAfter(s, i);
      var rest := s[i..];
      assert rest[0] == s[i..i + 2][0] && rest[1] == s[i..i + 2][1];
      assert rest[1..][1..] == s[i + 2..];
      PartsByNotEquals(s[i + 2..]);
    }
  }

  /** Two parts are what stands before and after the separator. */
  lemma {:induction false} TwoParts(s: string, sep: string)
    requires sep != "" && |Split(s, sep)| == 2
    ensures s == Split(s, sep)[0] + sep + Split(s, sep)[1]
  {
    var i := IndexOf(s, sep);
    assert s == s[..i] + sep + s[i + |sep|..];
  }

  // ---------------------------------------------------------------- the four forms

  /** What an option asks for. */
  datatype Form =
    | Present(key: string)
    | Absent(key: string)
    | Equal(key: string, value: string)
    | Differs(key: string, value: string)

  function Printed(f: Form): string {
    match f
    case Present(k) => k
    case Absent(k) => "!" + k
    case Equal(k, v) => k + "=" + v
    case Differs(k, v) => k + "!=" + v
  }

  predicate Plain(s: string) {
    Lacks(s, '=') && Lacks(s, '!')
  }

  predicate PlainForm(f: Form) {
    Plain(f.key) && ((f.Equal? || f.Differs?) ==> Plain(f.value))
  }

  /** How one option is read: the branches of the loop's body, on the three splittings. */
  function ReadParts(l: string, notEqual: seq<string>, equal: seq<string>, not: seq<string>): Option<Form> {
    if |notEqual| == 2 then Some(Differs(notEqual[0], notEqual[1]))
    else if |equal| == 1 && |not| == 1 then Some(Present(l))
    else if |equal| == 1 && |not| == 2 then Some(Absent(not[1]))
    else if |equal| == 2 && |not| == 1 then Some(Equal(equal[0], equal[1]))
    else None
  }

  function Read(l: string): Option<Form> {
    ReadParts(l, Split(l, "!="), Split(l, "="), Split(l, "!"))
  }

  lemma NoSeparators(s: string)
    requires Plain(s)
    ensures Occurrences(s, '=') == 0 && Occurrences(s, '!') == 0 && Split(s, "!=") == [s] && Split(s, "!") == [s]
  {
    LacksMeansNone(s, '=');
    LacksMeansNone(s, '!');
    SplitNever(s, "!=");
    SplitNever(s, "!");
  }

  /** Printing a form and reading it back. */
  lemma PrintThenRead(f: Form)
    requires PlainForm(f)
    ensures Read(Printed(f)) == Some(f)
  {
    var l := Printed(f);
    PartsByCharacter(l, '=');
    PartsByCharacter(l, '!');
    NoSeparators(f.key);
    match f {
      case Present(k) =>
      case Absent(k) =>
        SplitOnce("", k, "!");
        assert "" + "!" + k == l;
        assert Lacks(l, '=');
        LacksMeansNone(l, '=');
        SplitAbsent(k);
      case Equal(k, v) =>
        NoSeparators(v);
        SplitOnce(k, v, "=");
        CountSplit(k, v, '=');
        assert Lacks(l, '!');
        LacksMeansNone(l, '!');
        SplitNever(l, "!=");
      case Differs(k, v) =>
        NoSeparators(v);
        SplitOnce(k, v, "!=");
    }
  }

  lemma SplitAbsent(k: string)
    requires Plain(k)
    ensures |Split("!" + k, "!=")| == 1
  {
    var l := "!" + k;
    assert Lacks(l, '=');
    SepAtIndex(l, "!=");
  }

  /** One of the documented formats. */
  ghost predicate Documented(l: string) {
    exists f :: PlainForm(f) && l == Printed(f)
  }

  /** A lone `!` that does not lead: read as if it did, and what stands before it is dropped. */
  predicate StrayNot(l: string) {
    Occurrences(l, '=') == 0 && Occurrences(l, '!') == 1 && l[0] != '!'
  }

  lemma AcceptedParts(l: string, notEqual: seq<string>, equal: seq<string>, not: seq<string>)
    requires equal != [] && not != []
    ensures ReadParts(l, notEqual, equal, not).Some? <==> |notEqual| == 2 || |equal| + |not| <= 3
  {}

  /** Exactly which options are accepted. */
  lemma AcceptedWhen(l: string)
    ensures Read(l).Some? <==> NotEquals(l) == 1 || (Occurrences(l, '=') + Occurrences(l, '!') <= 1)
  {
    PartsByCharacter(l, '=');
    PartsByCharacter(l, '!');
    PartsByNotEquals(l);
    AcceptedParts(l, Split(l, "!="), Split(l, "="), Split(l, "!"));
  }

  /** What was read prints as the option again, but for a stray `!`. */
  lemma ReadThenPrint(l: string)
    requires Read(l).Some?
    ensures Printed(Read(l).value) == l <==> !StrayNot(l)
  {
    PartsByCharacter(l, '=');
    PartsByCharacter(l, '!');
    PartsByNotEquals(l);
    var notEqual, equal, not := Split(l, "!="), Split(l, "="), Split(l, "!");
    if |notEqual| == 2 {
      TwoParts(l, "!=");
      NotEqualsNeedsBoth(l);
    } else if |equal| == 1 && |not| == 2 {
      TwoParts(l, "!");
      HeadOfAbsent(l, not[0], not[1]);
    } else if |equal| == 2 && |not| == 1 {
      TwoParts(l, "=");
    }
  }

  lemma HeadOfAbsent(l: string, a: string, b: string)
    requires l == a + "!" + b && Occurrences(l, '!') == 1
    ensures l[0] == '!' <==> "!" + b == l
  {
    PartsCount(l, a, "!", b, '!');
    LacksMeansNone(a, '!');
    assert a != "" ==> l[0] == a[0];
    assert a == "" ==> l == "!" + b;
  }

  lemma {:induction false} NotEqualsNeedsBoth(l: string)
    ensures NotEquals(l) <= Occurrences(l, '=') && NotEquals(l) <= Occurrences(l, '!')
  {
    if |l| >= 2 {
      HeadAndTail(l, '=');
      HeadAndTail(l, '!');
      NotEqualsNeedsBoth(l[1..]);
      if l[0] == '!' && l[1] == '=' { NotEqualsOfTail(l[1..]); }
    }
  }

  lemma NotEqualsOfTail(t: string)
    requires t != "" && t[0] == '='
    ensures NotEquals(t) < Occurrences(t, '=')
  {
    HeadAndTail(t, '=');
    if |t| >= 2 { NotEqualsNeedsBoth(t[1..]); }
  }

  lemma PartsCount(l: string, a: string, sep: string, b: string, c: char)
    requires l == a + sep + b
    ensures Occurrences(l, c) == Occurrences(a, c) + Occurrences(sep, c) + Occurrences(b, c)
  {}

  /** At most one separator character and no stray `!`, or a single `!=` and nothing else of the kind. */
  predicate WellCounted(l: string) {
    || (Occurrences(l, '=') + Occurrences(l, '!') <= 1 && !StrayNot(l))
    || (NotEquals(l) == 1 && Occurrences(l, '=') == 1 && Occurrences(l, '!') == 1)
  }

  /** The documented formats, told by counting separators. */
  lemma DocumentedWhen(l: string)
    ensures Documented(l) <==> WellCounted(l)
  {
    if Documented(l) {
      var f :| PlainForm(f) && l == Printed(f);
      DocumentedIsCounted(f);
    }
    if WellCounted(l) {
      CountedIsDocumented(l);
    }
  }

  lemma CountedIsDocumented(l: string)
    requires WellCounted(l)
    ensures Documented(l)
  {
    AcceptedWhen(l);
    NotEqualsNeedsBoth(l);
    ReadThenPrint(l);
    PartsByCharacter(l, '=');
    PartsByCharacter(l, '!');
    PartsByNotEquals(l);
    ReadIsPlain(l, Read(l).value);
  }

  lemma DocumentedIsCounted(f: Form)
    requires PlainForm(f)
    ensures WellCounted(Printed(f))
  {
    var l := Printed(f);
    NoSeparators(f.key);
    if f.Differs? {
      NoSeparators(f.value);
      PartsCount(l, f.key, "!=", f.value, '=');
      PartsCount(l, f.key, "!=", f.value, '!');
      SplitOnce(f.key, f.value, "!=");
      PartsByNotEquals(l);
    } else {
      OneSeparator(f);
      PrintThenRead(f);
      ReadThenPrint(l);
    }
  }

  lemma OneSeparator(f: Form)
    requires PlainForm(f) && !f.Differs?
    ensures Occurrences(Printed(f), '=') + Occurrences(Printed(f), '!') <= 1
  {
    NoSeparators(f.key);
    match f {
      case Present(k) =>
      case Absent(k) =>
        PartsCount(Printed(f), "", "!", k, '=');
        PartsCount(Printed(f), "", "!", k, '!');
      case Equal(k, v) =>
        NoSeparators(v);
        PartsCount(Printed(f), k, "=", v, '=');
        PartsCount(Printed(f), k, "=", v, '!');
    }
  }

  lemma ReadIsPlain(l: string, f: Form)
    requires l == Printed(f)
    requires Occurrences(l, '=') <= 1 && Occurrences(l, '!') <= 1
    requires f.Present? ==> Occurrences(l, '=') + Occurrences(l, '!') == 0
    requires f.Absent? ==> Occurrences(l, '=') == 0
    requires f.Equal? ==> Occurrences(l, '!') == 0
    ensures PlainForm(f)
  {
    LacksMeansNone(f.key, '=');
    LacksMeansNone(f.key, '!');
    if f.Equal? || f.Differs? {
      LacksMeansNone(f.value, '=');
      LacksMeansNone(f.value, '!');
    }
    match f {
      case Present(k) =>
      case Absent(k) => PartsCount(l, "", "!", k, '='); PartsCount(l, "", "!", k, '!');
      case Equal(k, v) => PartsCount(l, k, "=", v, '='); PartsCount(l, k, "=", v, '!');
      case Differs(k, v) => PartsCount(l, k, "!=", v, '='); PartsCount(l, k, "!=", v, '!');
    }
  }

  /** What is accepted although it is none of the documented formats. */
  lemma AcceptedBeyondDocumented(l: string)
    ensures Read(l).Some? && !Documented(l) <==>
      StrayNot(l) || (NotEquals(l) == 1 && Occurrences(l, '=') + Occurrences(l, '!') > 2)
  {
    AcceptedWhen(l);
    DocumentedWhen(l);
    NotEqualsNeedsBoth(l);
  }

  // ---------------------------------------------------------------- building a selector

  /** A label map of the caller, which may be nil. */
  class LabelMap {
    var entries: Labels

    constructor (e: Labels)
      ensures entries == e
    {
      entries := e;
    }
  }

  /** Why an option ends the run: it is malformed, or it writes to a nil map, which panics. */
  function Fault(l: string, isNil: bool): Option<Error> {
    match Read(l)
    case None => Some(InvalidLabelOption)
    case Some(Equal(_, _)) => if isNil then Some(NilMapWrite) else None
    case Some(_) => None
  }

  /** Where the first fault is, from an option on. */
  function FirstFault(options: seq<string>, isNil: bool, from: nat): (n: nat)
    requires from <= |options|
    ensures from <= n <= |options|
    ensures forall i :: from <= i < n ==> Fault(options[i], isNil).None?
    ensures n < |options| ==> Fault(options[n], isNil).Some?
    decreases |options| - from
  {
    if from == |options| || Fault(options[from], isNil).Some? then from else FirstFault(options, isNil, from + 1)
  }

  /** How many options are taken in before the first fault. */
  function Processed(options: seq<string>, isNil: bool): (n: nat)
    ensures n <= |options|
  {
    FirstFault(options, isNil, 0)
  }

  /** The forms of the options that can be read. */
  function Forms(options: seq<string>): seq<Form> {
    if options == [] then []
    else
      var last := Read(options[|options| - 1]);
      Forms(options[..|options| - 1]) + if last.None? then [] else [last.value]
  }

  /** The labels the forms set, the last one winning. */
  function Overrides(forms: seq<Form>): Labels {
    if forms == [] then map[]
    else
      var before := Overrides(forms[..|forms| - 1]);
      match forms[|forms| - 1]
      case Equal(k, v) => before[k := v]
      case _ => before
  }

  /** The requirement of a form that is not an assignment. */
  function AsRequirement(f: Form): seq<Requirement> {
    match f
    case Present(k) => [Requirement(k, Operator.Exists, [])]
    case Absent(k) => [Requirement(k, Operator.DoesNotExist, [])]
    case Differs(k, v) => [Requirement(k, Operator.NotIn, [v])]
    case Equal(_, _) => []
  }

  function Expressions(forms: seq<Form>): seq<Requirement> {
    if forms == [] then [] else Expressions(forms[..|forms| - 1]) + AsRequirement(forms[|forms| - 1])
  }

  lemma OneMoreForm(forms: seq<Form>, f: Form)
    ensures Overrides(forms + [f]) == if f.Equal? then Overrides(forms)[f.key := f.value] else Overrides(forms)
    ensures Expressions(forms + [f]) == Expressions(forms) + AsRequirement(f)
  {
    assert (forms + [f])[..|forms|] == forms;
  }

  lemma OneMoreOption(options: seq<string>, i: nat, f: Form)
    requires i < |options| && Read(options[i]) == Some(f)
    ensures Forms(options[..i + 1]) == Forms(options[..i]) + [f]
  {
    assert options[..i + 1][..i] == options[..i];
  }

  /** The first options have been taken in without a fault. */
  predicate Faultless(options: seq<string>, i: nat, isNil: bool)
    requires i <= |options|
  {
    forall j :: 0 <= j < i ==> Fault(options[j], isNil).None?
  }

  lemma ProcessedSoFar(options: seq<string>, i: nat, isNil: bool)
    requires i <= |options| && Faultless(options, i, isNil)
    ensures i == |options| || Fault(options[i], isNil).Some? ==> Processed(options, isNil) == i
    ensures i < |options| && Fault(options[i], isNil).None? ==> Faultless(options, i + 1, isNil)
  {}

  /** `NewSelector`: assignments go into the caller's map, in place. */
  method NewSelector(options: seq<string>, labels: LabelMap?) returns (r: Result<LabelSelector>)
    modifies labels
    ensures r.Ok? <==> Processed(options, labels == null) == |options|
    ensures r.Err? ==> Fault(options[Processed(options, labels == null)], labels == null) == Some(r.error)
    ensures labels != null ==>
      labels.entries == old(labels.entries) + Overrides(Forms(options[..Processed(options, labels == null)]))
    ensures r.Ok? ==> r.value == LabelSelector(if labels == null then map[] else labels.entries, Expressions(Forms(options)))
  {
    var matchExpressions: seq<Requirement> := [];
    ghost var base: Labels := if labels == null then map[] else labels.entries;
    for i := 0 to |options|
      invariant matchExpressions == Expressions(Forms(options[..i]))
      invariant labels != null ==> labels.entries == base + Overrides(Forms(options[..i]))
      invariant Faultless(options, i, labels == null)
    {
      var fault: Option<Error>;
      ProcessedSoFar(options, i, labels == null);
      fault, matchExpressions := AddOption(options[i], labels, matchExpressions);
      if fault.Some? { return Err(fault.value); }
      OneMoreOption(options, i, Read(options[i]).value);
      NextForm(options, i, Read(options[i]).value, base);
    }
    ProcessedSoFar(options, |options|, labels == null);
    assert options[..|options|] == options;
    r := Ok(LabelSelector(if labels == null then map[] else labels.entries, matchExpressions));
  }

  lemma NextForm(options: seq<string>, i: nat, f: Form, base: Labels)
    requires i < |options| && Forms(options[..i + 1]) == Forms(options[..i]) + [f]
    ensures base + Overrides(Forms(options[..i + 1])) ==
      if f.Equal? then (base + Overrides(Forms(options[..i])))[f.key := f.value] else base + Overrides(Forms(options[..i]))
    ensures Expressions(Forms(options[..i + 1])) == Expressions(Forms(options[..i])) + AsRequirement(f)
  {
    OneMoreForm(Forms(options[..i]), f);
    if f.Equal? { OneMoreOnTop(base, Overrides(Forms(options[..i])), f.key, f.value); }
  }

  lemma OneMoreOnTop(base: Labels, over: Labels, k: string, v: string)
    ensures base + over[k := v] == (base + over)[k := v]
  {}

  /** The loop's body. */
  method AddOption(l: string, labels: LabelMap?, expressions: seq<Requirement>) returns (fault: Option<Error>, more: seq<Requirement>)
    modifies labels
    ensures fault == Fault(l, labels == null)
    ensures fault.None? ==> Read(l).Some? && more == expressions + AsRequirement(Read(l).value)
    ensures labels != null ==>
      labels.entries == if fault.None? && Read(l).value.Equal? then old(labels.entries)[Read(l).value.key := Read(l).value.value]
                        else old(labels.entries)
  {
    fault, more := None, expressions;
    var notEqual, equal, not := Split(l, "!="), Split(l, "="), Split(l, "!");
    if |notEqual| == 2 {
      more := expressions + [Requirement(notEqual[0], Operator.NotIn, [notEqual[1]])];
    } else if |equal| == 1 && |not| == 1 {
      more := expressions + [Requirement(l, Operator.Exists, [])];
    } else if |equal| == 1 && |not| == 2 {
      more := expressions + [Requirement(not[1], Operator.DoesNotExist, [])];
    } else if |equal| == 2 && |not| == 1 {
      if labels == null { return Some(NilMapWrite), expressions; }
      labels.entries := labels.entries[equal[0] := equal[1]];
    } else {
      fault := Some(InvalidLabelOption);
    }
  }

  // ---------------------------------------------------------------- what the selector selects

  /** What one form asks of an object's labels. */
  predicate Satisfied(f: Form, labels: Labels) {
    match f
    case Present(k) => k in labels
    case Absent(k) => k !in labels
    case Equal(k, v) => k in labels && labels[k] == v
    case Differs(k, v) => k !in labels || labels[k] != v
  }

  predicate Assigns(f: Form, k: string) {
    f.Equal? && f.key == k
  }

  /** A later option assigns the same key. */
  ghost predicate Overridden(forms: seq<Form>, i: nat, k: string) {
    exists j :: i < j < |forms| && Assigns(forms[j], k)
  }

  /** Each option holds, assignments that are overridden aside. */
  ghost predicate AllHold(forms: seq<Form>, labels: Labels) {
    forall i :: 0 <= i < |forms| ==>
      Satisfied(forms[i], labels) || (forms[i].Equal? && Overridden(forms, i, forms[i].key))
  }

  lemma {:induction false} LastAssignment(forms: seq<Form>, k: string) returns (i: nat)
    requires k in Overrides(forms)
    ensures i < |forms| && Assigns(forms[i], k) && !Overridden(forms, i, k) && Overrides(forms)[k] == forms[i].value
  {
    var n := |forms| - 1;
    if Assigns(forms[n], k) {
      i := n;
    } else {
      i := LastAssignment(forms[..n], k);
      assert forall j :: i < j < n ==> forms[..n][j] == forms[j];
    }
  }

  lemma {:induction false} AssignedIsOverride(forms: seq<Form>, i: nat)
    requires i < |forms| && forms[i].Equal?
    ensures forms[i].key in Overrides(forms)
  {
    var n := |forms| - 1;
    if i < n { AssignedIsOverride(forms[..n], i); }
  }

  /** The last assignment of a key decides. */
  lemma LastWins(forms: seq<Form>, i: nat)
    requires i < |forms| && forms[i].Equal? && !Overridden(forms, i, forms[i].key)
    ensures forms[i].key in Overrides(forms) && Overrides(forms)[forms[i].key] == forms[i].value
  {
    AssignedIsOverride(forms, i);
    var j := LastAssignment(forms, forms[i].key);
    assert Assigns(forms[i], forms[i].key);
  }

  ghost predicate AllMeet(requirements: seq<Requirement>, labels: Labels) {
    forall j :: 0 <= j < |requirements| ==> Meets(requirements[j], labels)
  }

  lemma {:induction false} ExpressionsHold(forms: seq<Form>, labels: Labels)
    ensures AllMeet(Expressions(forms), labels) <==>
      forall i :: 0 <= i < |forms| && !forms[i].Equal? ==> Satisfied(forms[i], labels)
  {
    if forms != [] {
      var n := |forms| - 1;
      ExpressionsHold(forms[..n], labels);
      BothMeet(Expressions(forms[..n]), AsRequirement(forms[n]), labels);
      RequirementHolds(forms[n], labels);
      assert forall i :: 0 <= i < n ==> forms[..n][i] == forms[i];
    }
  }

  lemma RequirementHolds(f: Form, labels: Labels)
    ensures AllMeet(AsRequirement(f), labels) <==> f.Equal? || Satisfied(f, labels)
  {
    if !f.Equal? {
      assert AllMeet(AsRequirement(f), labels) <==> Meets(AsRequirement(f)[0], labels);
    }
  }

  lemma BothMeet(a: seq<Requirement>, b: seq<Requirement>, labels: Labels)
    ensures AllMeet(a + b, labels) <==> AllMeet(a, labels) && AllMeet(b, labels)
  {
    if AllMeet(a + b, labels) {
      forall j | 0 <= j < |a| ensures Meets(a[j], labels) { assert (a + b)[j] == a[j]; }
      forall j | 0 <= j < |b| ensures Meets(b[j], labels) { assert (a + b)[|a| + j] == b[j]; }
    }
  }

  /** The selector selects just the objects for which every option holds, the last assignment of a key
      deciding, and every label from the name that no option overrides. */
  lemma SelectorMeaning(forms: seq<Form>, fromName: Labels, labels: Labels)
    ensures Selects(LabelSelector(fromName + Overrides(forms), Expressions(forms)), labels) <==>
      AllHold(forms, labels) && forall k :: k in fromName && k !in Overrides(forms) ==> k in labels && labels[k] == fromName[k]
  {
    ExpressionsHold(forms, labels);
    var wanted := fromName + Overrides(forms);
    if HasAll(wanted, labels) {
      forall i | 0 <= i < |forms| && forms[i].Equal? && !Overridden(forms, i, forms[i].key)
        ensures Satisfied(forms[i], labels)
      {
        LastWins(forms, i);
        assert forms[i].key in wanted;
      }
      assert forall k :: k in fromName && k !in Overrides(forms) ==> k in wanted;
    }
    if AllHold(forms, labels) {
      forall k | k in Overrides(forms) ensures k in labels && labels[k] == Overrides(forms)[k] {
        var i := LastAssignment(forms, k);
        assert Satisfied(forms[i], labels);
      }
    }
    assert Selects(LabelSelector(wanted, Expressions(forms)), labels) <==> HasAll(wanted, labels) && AllMeet(Expressions(forms), labels);
  }

  /** Options printed from plain forms are all taken in, as those forms, when the map is not nil. */
  lemma PrintedIsTaken(forms: seq<Form>, options: seq<string>)
    requires |options| == |forms| && forall i :: 0 <= i < |forms| ==> PlainForm(forms[i]) && options[i] == Printed(forms[i])
    ensures Processed(options, false) == |options| && Forms(options) == forms
  {
    forall i | 0 <= i < |forms| ensures Read(options[i]) == Some(forms[i]) {
      PrintThenRead(forms[i]);
    }
    ReadForms(forms, options);
    ProcessedSoFar(options, |options|, false);
  }

  lemma {:induction false} ReadForms(forms: seq<Form>, options: seq<string>)
    requires |options| == |forms| && forall i :: 0 <= i < |forms| ==> Read(options[i]) == Some(forms[i])
    ensures Forms(options) == forms
  {
    if forms != [] {
      var n := |forms| - 1;
      ReadForms(forms[..n], options[..n]);
      assert forms == forms[..n] + [forms[n]];
    }
  }
}
