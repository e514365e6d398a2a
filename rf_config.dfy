/**
 * Configuration and label helpers of the corporate usage dashboard
 * (recoveryfit-corp-dashboard/includes/rf-config.php): the label normaliser, the
 * parent-to-invoice mapping table with its exact-then-normalised lookup, and the
 * fallback chain that derives a parent label from a user.
 */
module RfConfig {
  import opened Wrappers
  import opened Seqs
  import opened Text

  /** Corporate account statuses that take part (RF_ACTIVE_CORPORATE_STATUSES). */
  const ActiveCorporateStatuses: seq<string> := ["enabled", "active"]

  /** The invoice group of every known parent label, in table order (RF_PARENT_INVOICE_MAP). */
  const InvoiceMap: seq<(string, string)> := [
    ("Jenny_OPI", "OPI"),
    ("Newport_Charlotte", "North Carolina RTC"),
    ("Newport-Cerro Vista", "OCYA"),
    ("Newport-Charlotte NC", "North Carolina RTC"),
    ("Newport-Charlotte RTC", "North Carolina RTC"),
    ("Newport-Deerhaven", "OCYA"),
    ("Newport-DeerhavenMiramar", "OCYA"),
    ("Newport-East Bay", "Norcal-Eastbay"),
    ("Newport-Eastbay", "Norcal-Eastbay"),
    ("Newport-Lewis", "OCYA"),
    ("Newport-Miramar", "OCYA"),
    ("Newport-Periwinkle", "OCYA"),
    ("Newport-Westlake", "Westlake OP"),
    ("NewportAcademy-Fairfax", "Fairfax"),
    ("Newporthealthcare-shinglesprings", "Sacramento RTC"),
    ("newporthealthcare-shinglesprings", "Sacramento RTC")
  ]

  /** The invoice label of parents that no table key matches. */
  const Unmapped: string := "Unmapped"

  // ---------------------------------------------------------------- rf_normalize_label

  predicate IsLabelSep(c: char) { c == '-' || c == '_' }

  /** No character of `s` belongs to the class `p`. */
  predicate Outside(s: string, p: char -> bool)
  {
    forall i :: 0 <= i < |s| ==> !p(s[i])
  }

  /**
   * preg_replace('/[...]+/', ' ', s) for the class `p`: every maximal run of class
   * characters becomes one space, everything else is kept.
   */
  function CollapseRuns(s: string, p: char -> bool): (r: string)
    ensures r == [] <==> s == []
    decreases |s|
  {
    if s == [] then []
    else if p(s[0]) then [' '] + CollapseRuns(TrimLeft(s[1..], p), p)
    else [s[0]] + CollapseRuns(s[1..], p)
  }

  /** Every output character is the space of a run or a non-class character of the input. */
  lemma {:induction false} CollapseRunsChars(s: string, p: char -> bool)
    ensures forall c :: c in CollapseRuns(s, p) ==> c == ' ' || (!p(c) && c in s)
    decreases |s|
  {
    if s != [] {
      if p(s[0]) {
        var rest := TrimLeft(s[1..], p);
        CollapseRunsChars(rest, p);
        assert forall c :: c in rest ==> c in s;
      } else {
        CollapseRunsChars(s[1..], p);
        assert forall c :: c in s[1..] ==> c in s;
      }
    }
  }

  /** A class character in the output is never followed by another. */
  lemma {:induction false} CollapseRunsNoAdjacent(s: string, p: char -> bool)
    ensures NoAdjacent(CollapseRuns(s, p), p)
    decreases |s|
  {
    if s != [] {
      var r := CollapseRuns(s, p);
      var tail := if p(s[0]) then TrimLeft(s[1..], p) else s[1..];
      var rt := CollapseRuns(tail, p);
      assert r == [r[0]] + rt;
      CollapseRunsNoAdjacent(tail, p);
      if rt != [] {
        CollapseRunsEnds(tail, p);
        assert p(r[0]) ==> !p(rt[0]);
      }
      NoAdjacentCons(r[0], rt, p);
    }
  }

  /** Class characters of `s` are each followed by a non-class character or the end. */
  predicate NoAdjacent(s: string, p: char -> bool)
  {
    forall i :: 0 <= i < |s| - 1 && p(s[i]) ==> !p(s[i + 1])
  }

  lemma NoAdjacentCons(c: char, s: string, p: char -> bool)
    requires NoAdjacent(s, p)
    requires s != [] && p(c) ==> !p(s[0])
    ensures NoAdjacent([c] + s, p)
  {
    var t := [c] + s;
    forall i | 0 <= i < |t| - 1 && p(t[i]) ensures !p(t[i + 1]) {
      if i > 0 {
        assert t[i] == s[i - 1] && t[i + 1] == s[i];
      }
    }
  }

  /** The output starts and ends like the input, with a class character read as a space. */
  lemma {:induction false} CollapseRunsEnds(s: string, p: char -> bool)
    requires s != []
    ensures CollapseRuns(s, p)[0] == (if p(s[0]) then ' ' else s[0])
    ensures var r := CollapseRuns(s, p);
      r[|r| - 1] == (if p(s[|s| - 1]) then ' ' else s[|s| - 1])
    decreases |s|
  {
    if p(s[0]) {
      var rest := TrimLeft(s[1..], p);
      if rest != [] {
        CollapseRunsEnds(rest, p);
        assert rest[|rest| - 1] == s[|s| - 1];
      } else {
        assert p(s[|s| - 1]);
      }
    } else if |s| > 1 {
      CollapseRunsEnds(s[1..], p);
    }
  }

  /** A string whose class characters are single spaces is left as it is. */
  lemma {:induction false} CollapseRunsIdentity(s: string, p: char -> bool)
    requires forall i :: 0 <= i < |s| && p(s[i]) ==> s[i] == ' ' && (i + 1 < |s| ==> !p(s[i + 1]))
    ensures CollapseRuns(s, p) == s
  {
    if s != [] {
      CollapseRunsIdentity(s[1..], p);
      assert s == [s[0]] + s[1..];
    }
  }

  lemma OutsideTail(a: string, p: char -> bool)
    requires Outside(a, p) && a != []
    ensures !p(a[0]) && Outside(a[1..], p)
  {
    forall i | 0 <= i < |a| - 1 ensures !p(a[1..][i]) {
      assert a[1..][i] == a[i + 1];
    }
  }

  lemma CollapseRunsFrontStep(a: string, b: string, p: char -> bool)
    requires a != [] && !p(a[0])
    requires CollapseRuns(a[1..] + b, p) == a[1..] + CollapseRuns(b, p)
    ensures CollapseRuns(a + b, p) == a + CollapseRuns(b, p)
  {
    ConsFront(a, b, CollapseRuns(b, p));
    CollapseRunsKept(a[0], a[1..] + b, p);
  }

  lemma CollapseRunsKept(x: char, rest: string, p: char -> bool)
    requires !p(x)
    ensures CollapseRuns([x] + rest, p) == [x] + CollapseRuns(rest, p)
  {
    assert ([x] + rest)[1..] == rest;
  }

  /** A front without class characters passes through unchanged. */
  lemma {:induction false} CollapseRunsFront(a: string, b: string, p: char -> bool)
    requires Outside(a, p)
    ensures CollapseRuns(a + b, p) == a + CollapseRuns(b, p)
  {
    if a != [] {
      OutsideTail(a, p);
      CollapseRunsFront(a[1..], b, p);
      CollapseRunsFrontStep(a, b, p);
    } else {
      assert a + b == b;
    }
  }

  /** One class character between two class-free parts becomes one space. */
  lemma CollapseRunsJoin(a: string, c: char, b: string, p: char -> bool)
    requires Outside(a, p) && Outside(b, p) && p(c)
    ensures CollapseRuns(a + [c] + b, p) == a + " " + b
  {
    assert a + [c] + b == a + ([c] + b);
    CollapseRunsFront(a, [c] + b, p);
    assert ([c] + b)[1..] == b;
    assert TrimLeft(b, p) == b;
    CollapseRunsFront(b, [], p);
    assert b + [] == b;
  }

  /**
   * rf_normalize_label: trim, lower-case, turn runs of `-`/`_` into a space, collapse
   * whitespace runs into a space; a result of "0" is falsy and becomes "".
   */
  function NormalizeLabel(text: string): (r: string)
    ensures r != "0"
  {
    var lowered := Lower(PhpTrim(text));
    var spaced := CollapseRuns(lowered, IsLabelSep);
    var collapsed := CollapseRuns(spaced, IsPcreSpace);
    if collapsed == "0" then "" else collapsed
  }

  /**
   * A normalised label has no upper-case ASCII letter, no `-` or `_`, no whitespace
   * other than single spaces, and never two whitespace characters in a row.
   */
  lemma NormalizeLabelShape(text: string)
    ensures var r := NormalizeLabel(text);
      forall i :: 0 <= i < |r| ==> !IsUpperAscii(r[i]) && !IsLabelSep(r[i])
    ensures var r := NormalizeLabel(text);
      forall i :: 0 <= i < |r| && IsPcreSpace(r[i]) ==> r[i] == ' '
    ensures NoAdjacent(NormalizeLabel(text), IsPcreSpace)
  {
    var lowered := Lower(PhpTrim(text));
    var spaced := CollapseRuns(lowered, IsLabelSep);
    var collapsed := CollapseRuns(spaced, IsPcreSpace);
    assert forall c :: c in lowered ==> !IsUpperAscii(c);
    SpacedChars(lowered);
    CollapsedChars(spaced);
    CollapseRunsNoAdjacent(spaced, IsPcreSpace);
  }

  /** Turning separator runs into spaces leaves no separator and adds no upper-case letter. */
  lemma SpacedChars(lowered: string)
    requires forall c :: c in lowered ==> !IsUpperAscii(c)
    ensures forall c :: c in CollapseRuns(lowered, IsLabelSep) ==> !IsUpperAscii(c) && !IsLabelSep(c)
  {
    CollapseRunsChars(lowered, IsLabelSep);
  }

  /** Collapsing whitespace runs keeps that, and leaves only plain spaces as whitespace. */
  lemma CollapsedChars(spaced: string)
    requires forall c :: c in spaced ==> !IsUpperAscii(c) && !IsLabelSep(c)
    ensures forall c :: c in CollapseRuns(spaced, IsPcreSpace) ==>
      !IsUpperAscii(c) && !IsLabelSep(c) && (IsPcreSpace(c) ==> c == ' ')
  {
    CollapseRunsChars(spaced, IsPcreSpace);
  }

  /** NormalizeLabel from its four intermediate results. */
  lemma NormalizeSteps(text: string, trimmed: string, lowered: string, spaced: string, collapsed: string)
    requires PhpTrim(text) == trimmed && Lower(trimmed) == lowered
    requires CollapseRuns(lowered, IsLabelSep) == spaced
    requires CollapseRuns(spaced, IsPcreSpace) == collapsed
    ensures NormalizeLabel(text) == if collapsed == "0" then "" else collapsed
  {
  }

  /**
   * A label already in normal form: not "0", no upper-case letter or separator, its
   * whitespace single spaces never side by side, and no trimmable character at
   * either end.
   */
  predicate Canonical(x: string)
  {
    && x != "0"
    && (forall i :: 0 <= i < |x| ==> !IsUpperAscii(x[i]) && !IsLabelSep(x[i]))
    && (forall i :: 0 <= i < |x| && IsPcreSpace(x[i]) ==> x[i] == ' ')
    && NoAdjacent(x, IsPcreSpace)
    && (x == [] || (!IsPhpTrimChar(x[0]) && !IsPhpTrimChar(x[|x| - 1])))
  }

  /** Normalisation leaves a label in normal form unchanged. */
  lemma NormalizeCanonical(x: string)
    requires Canonical(x)
    ensures NormalizeLabel(x) == x
  {
    TrimIdentity(x, IsPhpTrimChar);
    LowerIdentity(x);
    CollapseRunsIdentity(x, IsLabelSep);
    CollapseRunsIdentity(x, IsPcreSpace);
  }

  /** The ends of a non-empty normalised label are ends of the trimmed input, read through Lower. */
  lemma NormalizeEnds(x: string)
    requires NormalizeLabel(x) != []
    ensures var r := NormalizeLabel(x);
      r[0] == ' ' || r[0] == LowerChar(PhpTrim(x)[0])
    ensures var r := NormalizeLabel(x);
      r[|r| - 1] == ' ' || r[|r| - 1] == LowerChar(PhpTrim(x)[|PhpTrim(x)| - 1])
  {
    var trimmed := PhpTrim(x);
    var lowered := Lower(trimmed);
    var spaced := CollapseRuns(lowered, IsLabelSep);
    var collapsed := CollapseRuns(spaced, IsPcreSpace);
    assert NormalizeLabel(x) == collapsed;
    assert spaced != [] && lowered != [];
    CollapseRunsEnds(lowered, IsLabelSep);
    CollapseRunsEnds(spaced, IsPcreSpace);
  }

  /** Lower-casing never turns a character into a trimmable one or out of one. */
  lemma LowerCharTrim(c: char)
    ensures IsPhpTrimChar(LowerChar(c)) == IsPhpTrimChar(c)
  {
  }

  /** Normalising twice changes nothing when the first result has no space at either end. */
  lemma NormalizeIdempotent(x: string)
    requires var r := NormalizeLabel(x); r == [] || (r[0] != ' ' && r[|r| - 1] != ' ')
    ensures NormalizeLabel(NormalizeLabel(x)) == NormalizeLabel(x)
  {
    var r := NormalizeLabel(x);
    NormalizeLabelShape(x);
    if r != [] {
      NormalizeEnds(x);
      var t := PhpTrim(x);
      LowerCharTrim(t[0]);
      LowerCharTrim(t[|t| - 1]);
    }
    NormalizeCanonical(r);
  }

  /** Lower-casing works character by character across a join. */
  lemma LowerJoin(a: string, c: char, b: string)
    ensures Lower(a + [c] + b) == Lower(a) + [LowerChar(c)] + Lower(b)
  {
    var x := a + [c] + b;
    var y := Lower(a) + [LowerChar(c)] + Lower(b);
    assert |Lower(x)| == |y|;
    forall i | 0 <= i < |y| ensures Lower(x)[i] == y[i] {
      if i < |a| {
        assert x[i] == a[i];
      } else if i == |a| {
        assert x[i] == c;
      } else {
        assert x[i] == b[i - |a| - 1];
      }
    }
  }

  /** Two plain words joined by one separator normalise to the lower-cased words around a space. */
  lemma NormalizeSeparated(a: string, c: char, b: string, la: string, lb: string)
    requires Lower(a) == la && Lower(b) == lb && IsLabelSep(c)
    requires a != [] && b != [] && !IsPhpTrimChar(a[0]) && !IsPhpTrimChar(b[|b| - 1])
    requires Outside(la, IsLabelSep) && Outside(la, IsPcreSpace)
    requires Outside(lb, IsLabelSep) && Outside(lb, IsPcreSpace)
    ensures NormalizeLabel(a + [c] + b) == la + " " + lb
  {
    var x := a + [c] + b;
    assert x[0] == a[0] && x[|x| - 1] == b[|b| - 1];
    TrimIdentity(x, IsPhpTrimChar);
    assert PhpTrim(x) == x;
    LowerJoin(a, c, b);
    var lowered := la + [c] + lb;
    assert Lower(x) == lowered;
    CollapseRunsJoin(la, c, lb, IsLabelSep);
    var spaced := la + [' '] + lb;
    assert la + " " + lb == spaced;
    CollapseRunsJoin(la, ' ', lb, IsPcreSpace);
    assert CollapseRuns(spaced, IsPcreSpace) == spaced;
    assert |spaced| > 1;
  }

  /**
   * Trimming comes first, so a word followed by one separator normalises with a
   * trailing space and does not meet the bare word.
   */
  lemma NormalizeTrailingSeparator(w: string, c: char, lw: string)
    requires Lower(w) == lw && IsLabelSep(c)
    requires w != [] && !IsPhpTrimChar(w[0])
    requires Outside(lw, IsLabelSep) && Outside(lw, IsPcreSpace)
    ensures NormalizeLabel(w + [c]) == lw + " "
  {
    var x := w + [c];
    assert x[0] == w[0] && x[|x| - 1] == c;
    TrimIdentity(x, IsPhpTrimChar);
    assert PhpTrim(x) == x;
    assert x == w + [c] + [];
    LowerJoin(w, c, []);
    var lowered := lw + [c] + [];
    assert Lower(x) == lowered;
    CollapseRunsJoin(lw, c, [], IsLabelSep);
    var spaced := lw + [' '] + [];
    assert CollapseRuns(lowered, IsLabelSep) == spaced;
    CollapseRunsJoin(lw, ' ', [], IsPcreSpace);
    assert CollapseRuns(spaced, IsPcreSpace) == spaced;
    assert |spaced| > 1;
  }

  /** "Newport-" normalises to "newport " rather than "newport". */
  lemma NormalizeTrailingDashExample()
    ensures NormalizeLabel("Newport-") == "newport "
  {
    assert "Newport-" == "Newport" + ['-'];
    NormalizeTrailingSeparator("Newport", '-', "newport");
  }

  /** A normal-form label with one trailing space normalises back to the label. */
  lemma NormalizeTrailingSpace(w: string)
    requires Canonical(w) && w != []
    ensures NormalizeLabel(w + " ") == w
  {
    var x := w + " ";
    assert x[0] == w[0];
    assert TrimLeft(x, IsPhpTrimChar) == x;
    assert x[..|w|] == w;
    assert TrimRight(w, IsPhpTrimChar) == w;
    assert TrimRight(x, IsPhpTrimChar) == w;
    assert PhpTrim(x) == w;
    NormalizeCanonical(w);
    NormalizeSteps(x, w, Lower(w), CollapseRuns(Lower(w), IsLabelSep),
                   CollapseRuns(CollapseRuns(Lower(w), IsLabelSep), IsPcreSpace));
    NormalizeSteps(w, w, Lower(w), CollapseRuns(Lower(w), IsLabelSep),
                   CollapseRuns(CollapseRuns(Lower(w), IsLabelSep), IsPcreSpace));
  }

  lemma NormalizeNewportSpace()
    ensures NormalizeLabel("newport ") == "newport"
  {
    var w := "newport";
    assert Canonical(w);
    assert w + " " == "newport ";
    NormalizeTrailingSpace(w);
  }

  /** So normalising "Newport-" a second time removes the space. */
  lemma NormalizeTwiceExample()
    ensures NormalizeLabel(NormalizeLabel("Newport-")) == "newport"
  {
    NormalizeTrailingDashExample();
    NormalizeNewportSpace();
  }

  /** A label whose first character survives trimming and lower-casing keeps it in front. */
  lemma NormalizeFirst(x: string)
    requires x != [] && !IsPhpTrimChar(x[0]) && !IsPhpTrimChar(x[|x| - 1])
    requires !IsLabelSep(LowerChar(x[0])) && !IsPcreSpace(LowerChar(x[0]))
    ensures NormalizeLabel(x) == [] || NormalizeLabel(x)[0] == LowerChar(x[0])
  {
    TrimIdentity(x, IsPhpTrimChar);
    var lowered := Lower(x);
    var spaced := CollapseRuns(lowered, IsLabelSep);
    CollapseRunsEnds(lowered, IsLabelSep);
    CollapseRunsEnds(spaced, IsPcreSpace);
  }

  /** Both falsy strings normalise to the empty string. */
  lemma NormalizeFalsy()
    ensures NormalizeLabel("0") == ""
    ensures NormalizeLabel("") == ""
  {
    TrimIdentity("0", IsPhpTrimChar);
    CollapseRunsIdentity("0", IsLabelSep);
    CollapseRunsIdentity("0", IsPcreSpace);
    TrimIdentity("", IsPhpTrimChar);
  }

  // ---------------------------------------------------------------- rf_get_invoice_label_for_parent

  /** The first position whose key `matches` accepts, or None; the table is scanned in order. */
  function FirstMatch(table: seq<(string, string)>, matches: string -> bool): (r: Option<nat>)
    ensures r.Some? ==> r.value < |table| && matches(table[r.value].0)
    ensures r.Some? ==> forall k :: 0 <= k < r.value ==> !matches(table[k].0)
    ensures r.None? ==> forall k :: 0 <= k < |table| ==> !matches(table[k].0)
  {
    if table == [] then None
    else if matches(table[0].0) then Some(0)
    else match FirstMatch(table[1..], matches)
      case None => None
      case Some(k) => Some(k + 1)
  }

  /**
   * The invoice label of a parent label under `table`: the value of the exact key,
   * otherwise the value of the first key whose normalised form equals the label's,
   * otherwise "Unmapped".
   */
  function InvoiceLabelFor(table: seq<(string, string)>, parentLabel: string): (r: string)
    ensures r == Unmapped || exists k :: 0 <= k < |table| && r == table[k].1
  {
    match FirstMatch(table, SameKey(parentLabel))
    case Some(k) => table[k].1
    case None =>
      match FirstMatch(table, NormalizesTo(NormalizeLabel(parentLabel)))
      case Some(k) => table[k].1
      case None => Unmapped
  }

  /** The test of the exact lookup: the key is the label itself. */
  function SameKey(parentLabel: string): string -> bool
  {
    key => key == parentLabel
  }

  /** The test of the second lookup: the key normalises to `normalized`. */
  function NormalizesTo(normalized: string): string -> bool
  {
    key => NormalizeLabel(key) == normalized
  }

  /** An exact key wins, whatever normalisation would have found. */
  lemma InvoiceLabelExact(table: seq<(string, string)>, parentLabel: string, k: nat)
    requires k < |table| && table[k].0 == parentLabel
    requires forall m :: 0 <= m < k ==> table[m].0 != parentLabel
    ensures InvoiceLabelFor(table, parentLabel) == table[k].1
  {
    var hit := FirstMatch(table, SameKey(parentLabel));
    assert SameKey(parentLabel)(table[k].0);
    assert hit == Some(k);
  }

  /** Without an exact key, the first key in table order that normalises alike wins. */
  lemma InvoiceLabelNormalized(table: seq<(string, string)>, parentLabel: string, k: nat)
    requires forall m :: 0 <= m < |table| ==> table[m].0 != parentLabel
    requires k < |table| && NormalizeLabel(table[k].0) == NormalizeLabel(parentLabel)
    requires forall m :: 0 <= m < k ==> NormalizeLabel(table[m].0) != NormalizeLabel(parentLabel)
    ensures InvoiceLabelFor(table, parentLabel) == table[k].1
  {
    assert FirstMatch(table, SameKey(parentLabel)).None?;
    var normalized := NormalizeLabel(parentLabel);
    var hit := FirstMatch(table, NormalizesTo(normalized));
    assert NormalizesTo(normalized)(table[k].0);
    assert hit == Some(k);
  }

  /** "Unmapped" comes out exactly when no key matches, exactly or after normalisation. */
  lemma InvoiceLabelUnmapped(table: seq<(string, string)>, parentLabel: string)
    requires forall m :: 0 <= m < |table| ==> table[m].1 != Unmapped
    ensures InvoiceLabelFor(table, parentLabel) == Unmapped <==>
      forall m :: 0 <= m < |table| ==> NormalizeLabel(table[m].0) != NormalizeLabel(parentLabel)
  {
    var normalized := NormalizeLabel(parentLabel);
    var exact := FirstMatch(table, SameKey(parentLabel));
    var loose := FirstMatch(table, NormalizesTo(normalized));
    if exact.Some? {
      assert NormalizeLabel(table[exact.value].0) == normalized;
    }
  }

  /** rf_get_invoice_label_for_parent over the configured table. */
  function InvoiceLabelForParent(parentLabel: string): (r: string)
    ensures r == Unmapped || exists k :: 0 <= k < |InvoiceMap| && r == InvoiceMap[k].1
  {
    InvoiceLabelFor(InvoiceMap, parentLabel)
  }

  /** The configured table never maps to "Unmapped". */
  lemma InvoiceMapWellFormed()
    ensures forall m :: 0 <= m < |InvoiceMap| ==> InvoiceMap[m].1 != Unmapped
  {
  }

  /** A non-empty word of lower-case ASCII letters. */
  predicate LowerWord(w: string)
  {
    w != [] && forall i :: 0 <= i < |w| ==> IsLowerAscii(w[i])
  }

  /** Two lower-case words around one space are in normal form. */
  lemma LowerWordsCanonical(a: string, b: string)
    requires LowerWord(a) && LowerWord(b)
    ensures Canonical(a + " " + b)
  {
    var x := a + " " + b;
    forall i | 0 <= i < |x|
      ensures (i == |a| && x[i] == ' ') || (i != |a| && IsLowerAscii(x[i]))
    {
      if i < |a| {
        assert x[i] == a[i];
      } else if i > |a| {
        assert x[i] == b[i - |a| - 1];
      }
    }
  }

  lemma CanonicalNewportCharlotte()
    ensures NormalizeLabel("newport charlotte") == "newport charlotte"
  {
    assert "newport charlotte" == "newport" + " " + "charlotte";
    LowerWordsCanonical("newport", "charlotte");
    NormalizeCanonical("newport charlotte");
  }

  lemma SeparatedNewportCharlotte()
    ensures NormalizeLabel("Newport_Charlotte") == "newport charlotte"
  {
    assert "Newport_Charlotte" == "Newport" + ['_'] + "Charlotte";
    assert "newport charlotte" == "newport" + " " + "charlotte";
    assert Lower("Newport") == "newport";
    assert Lower("Charlotte") == "charlotte";
    SeparatedWords("Newport", '_', "Charlotte", "newport", "charlotte");
  }

  /** Two words whose lower-case forms are plain lower-case words, around one separator. */
  lemma SeparatedWords(a: string, c: char, b: string, la: string, lb: string)
    requires Lower(a) == la && Lower(b) == lb && IsLabelSep(c)
    requires LowerWord(la) && LowerWord(lb)
    requires a != [] && b != [] && IsUpperAscii(a[0]) && IsLowerAscii(b[|b| - 1])
    ensures NormalizeLabel(a + [c] + b) == la + " " + lb
  {
    LowerWordOutside(la);
    LowerWordOutside(lb);
    NormalizeSeparated(a, c, b, la, lb);
  }

  lemma LowerWordOutside(w: string)
    requires LowerWord(w)
    ensures Outside(w, IsLabelSep) && Outside(w, IsPcreSpace)
  {
    forall i | 0 <= i < |w| ensures !IsLabelSep(w[i]) && !IsPcreSpace(w[i]) {
      assert IsLowerAscii(w[i]);
    }
  }

  lemma CharlotteEntry()
    ensures InvoiceMap[0] == ("Jenny_OPI", "OPI")
    ensures InvoiceMap[1] == ("Newport_Charlotte", "North Carolina RTC")
  {
  }

  /** The first two keys of the table: only the second normalises to "newport charlotte". */
  lemma CharlotteKeys()
    ensures InvoiceMap[1].1 == "North Carolina RTC"
    ensures NormalizeLabel(InvoiceMap[1].0) == "newport charlotte"
    ensures NormalizeLabel(InvoiceMap[0].0) != "newport charlotte"
  {
    CharlotteEntry();
    SeparatedNewportCharlotte();
    FirstKeyElsewhere();
  }

  lemma FirstKeyElsewhere()
    ensures NormalizeLabel(InvoiceMap[0].0) != "newport charlotte"
  {
    CharlotteEntry();
    var first := InvoiceMap[0].0;
    assert first[0] == 'J' && first[|first| - 1] == 'I';
    assert LowerChar('J') == 'j';
    FirstLetterDiffers(first, "newport charlotte");
  }

  /** A label whose first letter, lower-cased, is not the first letter of `y` does not normalise to `y`. */
  lemma FirstLetterDiffers(x: string, y: string)
    requires x != [] && !IsPhpTrimChar(x[0]) && !IsPhpTrimChar(x[|x| - 1])
    requires !IsLabelSep(LowerChar(x[0])) && !IsPcreSpace(LowerChar(x[0]))
    requires y != [] && y[0] != LowerChar(x[0])
    ensures NormalizeLabel(x) != y
  {
    NormalizeFirst(x);
  }

  lemma NoExactNewportCharlotte()
    ensures forall m :: 0 <= m < |InvoiceMap| ==> InvoiceMap[m].0 != "newport charlotte"
  {
    forall m | 0 <= m < |InvoiceMap| ensures InvoiceMap[m].0 != "newport charlotte" {
      assert InvoiceMap[m].0[0] != 'n' || |InvoiceMap[m].0| != 17;
    }
  }

  /**
   * Every label that is not itself a key but normalises like "Newport_Charlotte"
   * (whatever its case and separators) is invoiced under "North Carolina RTC".
   */
  lemma InvoiceMapCharlotteVariants(x: string)
    requires forall m :: 0 <= m < |InvoiceMap| ==> InvoiceMap[m].0 != x
    requires NormalizeLabel(x) == "newport charlotte"
    ensures InvoiceLabelForParent(x) == "North Carolina RTC"
  {
    CharlotteKeys();
    forall m | 0 <= m < 1 ensures NormalizeLabel(InvoiceMap[m].0) != NormalizeLabel(x) {
      assert m == 0;
    }
    InvoiceLabelNormalized(InvoiceMap, x, 1);
  }

  /** "newport charlotte" is such a label. */
  lemma InvoiceMapNormalizedExample()
    ensures InvoiceLabelForParent("newport charlotte") == "North Carolina RTC"
  {
    CanonicalNewportCharlotte();
    NoExactNewportCharlotte();
    InvoiceMapCharlotteVariants("newport charlotte");
  }

  lemma CanonicalAcmeNy()
    ensures NormalizeLabel("acme ny") == "acme ny"
  {
    assert "acme ny" == "acme" + " " + "ny";
    LowerWordsCanonical("acme", "ny");
    NormalizeCanonical("acme ny");
  }

  lemma SeparatedAcmeNy()
    ensures NormalizeLabel("Acme-NY") == "acme ny"
  {
    assert "Acme-NY" == "Acme" + ['-'] + "NY";
    assert "acme ny" == "acme" + " " + "ny";
    NormalizeSeparated("Acme", '-', "NY", "acme", "ny");
  }

  /** The scenario of a one-entry table: "acme ny" finds "Acme-NY" by normalising. */
  lemma InvoiceLabelScenario()
    ensures InvoiceLabelFor([("Acme-NY", "NYGroup")], "acme ny") == "NYGroup"
  {
    CanonicalAcmeNy();
    SeparatedAcmeNy();
    InvoiceLabelNormalized([("Acme-NY", "NYGroup")], "acme ny", 0);
  }

  // ---------------------------------------------------------------- rf_get_parent_label

  /**
   * rf_get_parent_label from the user's company and location meta (as strings), login
   * and ID: "company-location" when both trim to something, else the company, else the
   * first two `-`/`_`-separated pieces of the login joined by '-', else the login,
   * else "User-<id>".
   */
  function ParentLabel(company: string, location: string, login: string, id: int): (r: string)
    ensures r != ""
  {
    var c := PhpTrim(company);
    var l := PhpTrim(location);
    if c != "" && l != "" then c + "-" + l
    else if c != "" then c
    else if login != "" then
      var parts := SplitBy(login, IsLabelSep);
      if |parts| >= 2 then parts[0] + "-" + parts[1] else login
    else "User-" + DecimalString(id)
  }

  /** A non-blank company decides the label; the location is appended only when non-blank too. */
  lemma ParentLabelCompany(company: string, location: string, login: string, id: int)
    requires PhpTrim(company) != ""
    ensures ParentLabel(company, location, login, id) ==
      if PhpTrim(location) == "" then PhpTrim(company)
      else PhpTrim(company) + "-" + PhpTrim(location)
  {
  }

  /** Without a company the location is ignored, whatever it holds. */
  lemma ParentLabelIgnoresLocation(company: string, location: string, location': string, login: string, id: int)
    requires PhpTrim(company) == ""
    ensures ParentLabel(company, location, login, id) == ParentLabel(company, location', login, id)
  {
  }

  /**
   * Without a company, a login with a separator at `i` (its first) gives the piece before
   * it, '-', and the piece after it up to the next separator `j` or the end.
   */
  lemma ParentLabelFromLogin(company: string, location: string, login: string, id: int, i: nat, j: nat)
    requires PhpTrim(company) == ""
    requires i < j <= |login| && IsLabelSep(login[i]) && NoSep(login[..i], IsLabelSep)
    requires NoSep(login[i + 1..j], IsLabelSep) && (j == |login| || IsLabelSep(login[j]))
    ensures ParentLabel(company, location, login, id) == login[..i] + "-" + login[i + 1..j]
  {
    SplitAtFirst(login, i, IsLabelSep);
    var rest := login[i + 1..];
    if j < |login| {
      assert rest[..j - i - 1] == login[i + 1..j];
      SplitAtFirst(rest, j - i - 1, IsLabelSep);
    } else {
      assert rest == login[i + 1..j];
      SplitNoSep(rest, IsLabelSep);
    }
  }

  /** Without a company, a login without separators is the label as it is. */
  lemma ParentLabelPlainLogin(company: string, location: string, login: string, id: int)
    requires PhpTrim(company) == "" && login != ""
    requires NoSep(login, IsLabelSep)
    ensures ParentLabel(company, location, login, id) == login
  {
    SplitNoSep(login, IsLabelSep);
  }

  /** With neither company nor login the label is "User-" and the decimal ID, which reads back. */
  lemma ParentLabelFallback(company: string, location: string, id: int)
    requires PhpTrim(company) == ""
    ensures var r := ParentLabel(company, location, "", id);
      |r| > 5 && r[..5] == "User-" && IntVal(r[5..]) == id
  {
    var r := ParentLabel(company, location, "", id);
    assert r[5..] == DecimalString(id);
    ParseDecimalString(id);
  }
}
