/** Names of symbolic sizes: map_operators_to_strings and map_strings_to_operators of
    torch_npu/_inductor/lowering_fx.py. */
module Mangling {

  /** str.replace: occurrences are taken from left to right and do not overlap. */
  function Replace(s: string, pat: string, rep: string): (r: string)
    requires pat != []
    decreases |s|
  {
    if |s| < |pat| then s
    else if s[..|pat|] == pat then rep + Replace(s[|pat|..], pat, rep)
    else [s[0]] + Replace(s[1..], pat, rep)
  }

  /** operator_to_string, in its order */
  const OPERATORS: seq<(char, string)> :=
    [('+', "a"), ('-', "sub"), ('*', "m"), ('/', "d"), ('(', "l"), (')', "r"), ('.', "p")]

  function Strip(s: string): string {
    Replace(s, " ", "")
  }

  /** The first k operators written out. */
  function Encode(s: string, k: nat): string
    requires k <= |OPERATORS|
  {
    if k == 0 then s else Replace(Encode(s, k - 1), [OPERATORS[k - 1].0], OPERATORS[k - 1].1)
  }

  /** The first k operator names turned back. */
  function Decode(s: string, k: nat): string
    requires k <= |OPERATORS|
  {
    if k == 0 then s else Replace(Decode(s, k - 1), OPERATORS[k - 1].1, [OPERATORS[k - 1].0])
  }

  function Mangle(s: string): string {
    "_" + Encode(Strip(s), |OPERATORS|)
  }

  function Demangle(s: string): string {
    var t := Decode(s, |OPERATORS|);
    if t == [] then [] else t[1..]
  }

  /** map_operators_to_strings */
  method MapOperatorsToStrings(exprStr: string) returns (name: string)
    ensures name == Mangle(exprStr)
  {
    var expr := Replace(exprStr, " ", "");
    for k := 0 to |OPERATORS|
      invariant expr == Encode(Strip(exprStr), k)
    {
      expr := Replace(expr, [OPERATORS[k].0], OPERATORS[k].1);
    }
    name := "_" + expr;
  }

  /** map_strings_to_operators */
  method MapStringsToOperators(name: string) returns (expr: string)
    ensures expr == Demangle(name)
  {
    expr := name;
    for k := 0 to |OPERATORS|
      invariant expr == Decode(name, k)
    {
      expr := Replace(expr, OPERATORS[k].1, [OPERATORS[k].0]);
    }
    expr := if expr == [] then [] else expr[1..];
  }

  // ----- character by character -----

  /** The name of a character when operators from number `from` up to number `to` are written out. */
  function Image(c: char, from: nat, to: nat): (r: string)
    ensures r != []
  {
    if c == '+' && from <= 0 < to then "a"
    else if c == '-' && from <= 1 < to then "sub"
    else if c == '*' && from <= 2 < to then "m"
    else if c == '/' && from <= 3 < to then "d"
    else if c == '(' && from <= 4 < to then "l"
    else if c == ')' && from <= 5 < to then "r"
    else if c == '.' && from <= 6 < to then "p"
    else [c]
  }

  function Images(s: string, from: nat, to: nat): string {
    if s == [] then [] else Image(s[0], from, to) + Images(s[1..], from, to)
  }

  lemma {:induction false} ImagesConcat(s: string, t: string, from: nat, to: nat)
    ensures Images(s + t, from, to) == Images(s, from, to) + Images(t, from, to)
  {
    if s == [] {
      assert s + t == t;
    } else {
      assert (s + t)[1..] == s[1..] + t;
      ImagesConcat(s[1..], t, from, to);
    }
  }

  lemma {:induction false} ImagesNone(s: string, k: nat)
    ensures Images(s, k, k) == s
  {
    if s != [] {
      ImagesNone(s[1..], k);
    }
  }

  /** Replacing one character works on each part separately. */
  lemma {:induction false} ReplaceCharConcat(s: string, t: string, c: char, rep: string)
    ensures Replace(s + t, [c], rep) == Replace(s, [c], rep) + Replace(t, [c], rep)
    decreases |s|
  {
    if s == [] {
      assert s + t == t;
    } else {
      assert (s + t)[1..] == s[1..] + t;
      assert (s + t)[..1] == s[..1];
      ReplaceCharConcat(s[1..], t, c, rep);
    }
  }

  lemma ReplaceCharOne(x: char, c: char, rep: string)
    ensures Replace([x], [c], rep) == if x == c then rep else [x]
  {
    assert [x][..1] == [x];
    assert [x][1..] == [];
    assert Replace([], [c], rep) == [];
  }

  /** Replacing a character that does not occur. */
  lemma {:induction false} ReplaceCharAbsent(s: string, c: char, rep: string)
    requires c !in s
    ensures Replace(s, [c], rep) == s
  {
    if s != [] {
      assert s[..1] == [s[0]];
      ReplaceCharAbsent(s[1..], c, rep);
    }
  }

  lemma EncodeImage(c: char, k: nat)
    requires k < |OPERATORS|
    ensures Replace(Image(c, 0, k), [OPERATORS[k].0], OPERATORS[k].1) == Image(c, 0, k + 1)
  {
    if |Image(c, 0, k)| == 1 {
      ReplaceCharOne(Image(c, 0, k)[0], OPERATORS[k].0, OPERATORS[k].1);
      assert Image(c, 0, k) == [Image(c, 0, k)[0]];
    } else {
      ReplaceCharAbsent("sub", OPERATORS[k].0, OPERATORS[k].1);
    }
  }

  lemma {:induction false} EncodeImages(s: string, k: nat)
    requires k < |OPERATORS|
    ensures Replace(Images(s, 0, k), [OPERATORS[k].0], OPERATORS[k].1) == Images(s, 0, k + 1)
    decreases |s|
  {
    if s != [] {
      ReplaceCharConcat(Image(s[0], 0, k), Images(s[1..], 0, k), OPERATORS[k].0, OPERATORS[k].1);
      EncodeImage(s[0], k);
      EncodeImages(s[1..], k);
    }
  }

  /** Writing operators out one after the other is writing each character out on its own. */
  lemma {:induction false} EncodeIsCharwise(s: string, k: nat)
    requires k <= |OPERATORS|
    ensures Encode(s, k) == Images(s, 0, k)
  {
    if k == 0 {
      ImagesNone(s, 0);
    } else {
      EncodeIsCharwise(s, k - 1);
      EncodeImages(s, k - 1);
    }
  }

  // ----- decoding what was encoded -----

  lemma OneImage(c: char, from: nat)
    ensures Images([c], from, 7) == Image(c, from, 7)
  {
    assert [c][1..] == [] && Images([], from, 7) == [];
  }

  lemma DecodeImage(c: char, k: nat)
    requires k < |OPERATORS| && k != 1
    ensures Replace(Image(c, k, 7), OPERATORS[k].1, [OPERATORS[k].0])
         == if OPERATORS[k].1 == [c] then [OPERATORS[k].0] else Image(c, k + 1, 7)
  {
    var x, op := OPERATORS[k].1[0], OPERATORS[k].0;
    assert OPERATORS[k].1 == [x];
    if c == '-' && k == 0 {
      ReplaceCharAbsent("sub", x, [op]);
    } else {
      var d := Image(c, k, 7)[0];
      assert Image(c, k, 7) == [d];
      ReplaceCharOne(d, x, [op]);
    }
  }

  lemma DecodeOne(c: char, k: nat)
    requires k < |OPERATORS| && k != 1
    ensures Replace(Image(c, k, 7), OPERATORS[k].1, [OPERATORS[k].0])
         == Images(Replace([c], OPERATORS[k].1, [OPERATORS[k].0]), k + 1, 7)
  {
    var x, op := OPERATORS[k].1[0], OPERATORS[k].0;
    DecodeImage(c, k);
    ReplaceCharOne(c, x, [op]);
    OneImage(c, k + 1);
    OneImage(op, k + 1);
    assert Image(op, k + 1, 7) == [op];
  }

  /** Turning a one-letter name back commutes with the names still written out. */
  lemma {:induction false} DecodeLetter(s: string, k: nat)
    requires k < |OPERATORS| && k != 1
    ensures Replace(Images(s, k, 7), OPERATORS[k].1, [OPERATORS[k].0])
         == Images(Replace(s, OPERATORS[k].1, [OPERATORS[k].0]), k + 1, 7)
    decreases |s|
  {
    hide Image;
    var x, rep := OPERATORS[k].1[0], [OPERATORS[k].0];
    assert OPERATORS[k].1 == [x];
    if s != [] {
      var head, tail := [s[0]], s[1..];
      assert s == head + tail;
      ReplaceCharConcat(Image(s[0], k, 7), Images(tail, k, 7), x, rep);
      DecodeOne(s[0], k);
      DecodeLetter(tail, k);
      ReplaceCharConcat(head, tail, x, rep);
      ImagesConcat(Replace(head, [x], rep), Replace(tail, [x], rep), k + 1, 7);
    }
  }

  /** An image never begins like the inside of "sub". */
  lemma ImagesStart(s: string, c: char)
    requires c == 'u' || c == 'b'
    ensures (Images(s, 1, 7) != [] && Images(s, 1, 7)[0] == c) <==> (s != [] && s[0] == c)
  {
  }

  /** "sub" occurs at position i. */
  predicate SubAt(s: string, i: int) {
    0 <= i <= |s| - 3 && s[i] == 's' && s[i + 1] == 'u' && s[i + 2] == 'b'
  }

  lemma TakeSub(s: string)
    ensures |s| >= 3 && s[..3] == "sub" <==> SubAt(s, 0)
  {
    if |s| >= 3 {
      assert s[..3] == [s[0], s[1], s[2]];
    }
  }

  lemma NoStraySub(s: string)
    requires s != [] && s[0] == 's' && !SubAt(s, 0)
    ensures !SubAt(Images(s, 1, 7), 0)
  {
    var t, rest := Images(s, 1, 7), Images(s[1..], 1, 7);
    assert t == ['s'] + rest;
    ImagesStart(s[1..], 'u');
    if rest != [] && rest[0] == 'u' {
      assert rest == ['u'] + Images(s[2..], 1, 7) by {
        assert s[1..][1..] == s[2..];
      }
      ImagesStart(s[2..], 'b');
    }
  }

  /** The same for the one name of three letters: it overlaps neither itself nor another name. */
  lemma {:induction false} DecodeSub(s: string)
    ensures Replace(Images(s, 1, 7), "sub", "-") == Images(Replace(s, "sub", "-"), 2, 7)
    decreases |s|
  {
    if s != [] {
      var tail := s[1..];
      if SubAt(s, 0) {
        assert s == "sub" + s[3..];
        DecodeSub(s[3..]);
        ImagesConcat("sub", s[3..], 1, 7);
        SubIsPlain(1);
        ReplaceSubHead(Images(s[3..], 1, 7));
        ReplaceSubHead(s[3..]);
      } else {
        DecodeSub(tail);
        assert s == [s[0]] + tail;
        ReplaceSubSkip(s[0], tail);
        if s[0] == '-' {
          ReplaceSubHead(Images(tail, 1, 7));
        } else {
          DecodePlainHead(s);
        }
      }
    }
  }

  lemma SubIsPlain(k: nat)
    ensures Images("sub", k, 7) == "sub"
  {
    assert "sub"[1..] == "ub" && "ub"[1..] == "b" && "b"[1..] == "";
    assert Images("b", k, 7) == "b";
    assert Images("ub", k, 7) == "ub";
  }

  lemma ReplaceSubHead(t: string)
    ensures Replace("sub" + t, "sub", "-") == "-" + Replace(t, "sub", "-")
  {
    assert ("sub" + t)[..3] == "sub" && ("sub" + t)[3..] == t;
  }

  lemma ReplaceSubSkip(c: char, t: string)
    requires !SubAt([c] + t, 0)
    ensures Replace([c] + t, "sub", "-") == [c] + Replace(t, "sub", "-")
  {
    TakeSub([c] + t);
    assert ([c] + t)[1..] == t;
    if |t| < 2 {
      assert Replace(t, "sub", "-") == t;
    }
  }

  /** A first character that is no minus sign and begins no "sub" stays where it is. */
  lemma DecodePlainHead(s: string)
    requires s != [] && s[0] != '-' && !SubAt(s, 0)
    ensures Replace(Images(s, 1, 7), "sub", "-")
         == Image(s[0], 2, 7) + Replace(Images(s[1..], 1, 7), "sub", "-")
  {
    var c := Image(s[0], 1, 7)[0];
    assert Image(s[0], 1, 7) == Image(s[0], 2, 7) == [c];
    if s[0] == 's' {
      NoStraySub(s);
    }
    ReplaceSubSkip(c, Images(s[1..], 1, 7));
  }

  lemma DecodeStep(s: string, k: nat)
    requires k < |OPERATORS|
    ensures Replace(Images(s, k, 7), OPERATORS[k].1, [OPERATORS[k].0])
         == Images(Replace(s, OPERATORS[k].1, [OPERATORS[k].0]), k + 1, 7)
  {
    if k == 1 {
      DecodeSub(s);
    } else {
      DecodeLetter(s, k);
    }
  }

  lemma {:induction false} DecodeUndoesEncode(s: string, k: nat)
    requires k <= |OPERATORS|
    ensures Decode(Images(s, 0, 7), k) == Images(Decode(s, k), k, 7)
  {
    if k > 0 {
      DecodeUndoesEncode(s, k - 1);
      DecodeStep(Decode(s, k - 1), k - 1);
    }
  }

  lemma {:induction false} DecodeUnderscore(s: string, k: nat)
    requires k <= |OPERATORS|
    ensures Decode("_" + s, k) == "_" + Decode(s, k)
  {
    if k > 0 {
      DecodeUnderscore(s, k - 1);
      var t, pat, rep := Decode(s, k - 1), OPERATORS[k - 1].1, [OPERATORS[k - 1].0];
      assert ("_" + t)[1..] == t;
      if |pat| <= |t| + 1 {
        assert ("_" + t)[..|pat|][0] == '_';
      }
      if |t| < |pat| {
        assert Replace(t, pat, rep) == t;
      }
    }
  }

  /** For every text: demangling its mangled name gives what demangling would make of the text itself. */
  lemma DemangleMangle(e: string)
    ensures Demangle(Mangle(e)) == Decode(Strip(e), 7)
  {
    var s := Strip(e);
    EncodeIsCharwise(s, 7);
    DecodeUnderscore(Images(s, 0, 7), 7);
    DecodeUndoesEncode(s, 7);
    ImagesNone(Decode(s, 7), 7);
  }

  // ----- when that is the expression itself -----

  const LETTERS := ['a', 'm', 'd', 'l', 'r', 'p']

  ghost predicate HasSub(s: string) {
    exists i :: SubAt(s, i)
  }

  /** No operator name occurs in the text. */
  ghost predicate Clean(s: string) {
    (forall i :: 0 <= i < |LETTERS| ==> LETTERS[i] !in s) && !HasSub(s)
  }

  /** Replacing one character by one character keeps all other positions. */
  lemma {:induction false} ReplaceByOne(s: string, c: char, d: char)
    ensures var r := Replace(s, [c], [d]);
      |r| == |s| && forall i :: 0 <= i < |s| ==> r[i] == if s[i] == c then d else s[i]
    decreases |s|
  {
    if s != [] {
      assert s[..1] == [s[0]];
      ReplaceByOne(s[1..], c, d);
    }
  }

  lemma {:induction false} ReplaceSub(s: string)
    ensures var r := Replace(s, "sub", "-");
      && |r| <= |s|
      && (HasSub(s) ==> |r| < |s|)
      && (!HasSub(s) ==> r == s)
      && (forall c :: c in r ==> c in s || c == '-')
    decreases |s|
  {
    TakeSub(s);
    if |s| < 3 {
    } else if SubAt(s, 0) {
      ReplaceSub(s[3..]);
    } else {
      ReplaceSub(s[1..]);
      assert forall i :: SubAt(s, i) ==> SubAt(s[1..], i - 1);
      assert forall i :: SubAt(s[1..], i) ==> SubAt(s, i + 1);
    }
  }

  /** One step of decoding: the text does not grow, keeps its length only if the name was absent or of one
      letter, no longer contains the letter, and is unchanged when the name does not occur. */
  lemma DecodeStepFacts(t: string, k: nat)
    requires k < |OPERATORS|
    ensures var r := Replace(t, OPERATORS[k].1, [OPERATORS[k].0]);
      && |r| <= |t|
      && (forall i :: 0 <= i < |LETTERS| && LETTERS[i] in r ==> LETTERS[i] in t)
      && (k != 1 ==> OPERATORS[k].1[0] !in r)
      && (k != 1 && OPERATORS[k].1[0] !in t ==> r == t)
      && (k == 1 && !HasSub(t) ==> r == t)
      && (k == 1 && HasSub(t) ==> |r| < |t|)
  {
    if k == 1 {
      ReplaceSub(t);
    } else {
      assert OPERATORS[k].1 == [OPERATORS[k].1[0]];
      ReplaceByOne(t, OPERATORS[k].1[0], OPERATORS[k].0);
    }
  }

  lemma {:induction false} CleanStays(s: string, k: nat)
    requires Clean(s) && k <= |OPERATORS|
    ensures Decode(s, k) == s
  {
    if k > 0 {
      CleanStays(s, k - 1);
      DecodeStepFacts(s, k - 1);
      var j := k - 1;
      if j != 1 {
        assert OPERATORS[j].1[0] == LETTERS[if j == 0 then 0 else j - 1];
      }
    }
  }

  /** Decoding leaves no operator letter behind. */
  lemma {:induction false} LettersGone(s: string, k: nat, i: nat)
    requires k <= |OPERATORS| && i < |LETTERS| && (if i == 0 then 0 else i + 1) < k
    ensures LETTERS[i] !in Decode(s, k)
  {
    DecodeStepFacts(Decode(s, k - 1), k - 1);
    if (if i == 0 then 0 else i + 1) < k - 1 {
      LettersGone(s, k - 1, i);
    }
  }

  lemma {:induction false} DecodeShrinks(s: string, k: nat)
    requires k <= |OPERATORS|
    ensures |Decode(s, k)| <= |s|
    ensures k >= 2 && 'a' !in s && HasSub(s) ==> |Decode(s, k)| < |s|
  {
    if k > 0 {
      DecodeShrinks(s, k - 1);
      DecodeStepFacts(Decode(s, k - 1), k - 1);
      if k == 2 && 'a' !in s {
        DecodeStepFacts(s, 0);
        assert Decode(s, 0) == s;
        assert Decode(s, 1) == s;
      }
    }
  }

  lemma FixedIsClean(s: string)
    requires Decode(s, 7) == s
    ensures Clean(s)
  {
    forall i | 0 <= i < |LETTERS| ensures LETTERS[i] !in s {
      LettersGone(s, 7, i);
    }
    assert LETTERS[0] == 'a';
    DecodeShrinks(s, 7);
  }

  lemma {:induction false} StripFacts(s: string)
    ensures ' ' !in s ==> Strip(s) == s
    ensures ' ' in s ==> |Strip(s)| < |s|
    ensures |Strip(s)| <= |s| && ' ' !in Strip(s)
  {
    if s != [] {
      StripFacts(s[1..]);
      assert s[..1] == [s[0]];
      assert s == [s[0]] + s[1..];
    }
  }

  /** The round trip returns the expression exactly when it has no space, none of the letters
      a, m, d, l, r, p, and no "sub". */
  lemma RoundTripExactly(e: string)
    ensures Demangle(Mangle(e)) == e <==> ' ' !in e && Clean(e)
  {
    DemangleMangle(e);
    StripFacts(e);
    DecodeShrinks(Strip(e), 7);
    if Demangle(Mangle(e)) == e {
      FixedIsClean(e);
    } else if ' ' !in e && Clean(e) {
      CleanStays(e, 7);
    }
  }

  // ----- collisions -----

  lemma ImageOfOperator(k: nat)
    requires k < |OPERATORS|
    ensures Images([OPERATORS[k].0], 0, 7) == OPERATORS[k].1
  {
    assert [OPERATORS[k].0][1..] == [];
    assert Images([], 0, 7) == [];
  }

  lemma ImageOfName(k: nat)
    requires k < |OPERATORS|
    ensures Images(OPERATORS[k].1, 0, 7) == OPERATORS[k].1
  {
    if k == 1 {
      SubIsPlain(0);
    } else {
      assert OPERATORS[k].1[1..] == [];
      assert Images([], 0, 7) == [];
    }
  }

  lemma {:induction false} ImagesForget(s: string, k: nat)
    requires k < |OPERATORS|
    ensures Images(Replace(s, OPERATORS[k].1, [OPERATORS[k].0]), 0, 7) == Images(s, 0, 7)
    decreases |s|
  {
    var pat, rep := OPERATORS[k].1, [OPERATORS[k].0];
    if |s| < |pat| {
    } else if s[..|pat|] == pat {
      ImagesForget(s[|pat|..], k);
      assert s == pat + s[|pat|..];
      ImagesConcat(pat, s[|pat|..], 0, 7);
      ImagesConcat(rep, Replace(s[|pat|..], pat, rep), 0, 7);
      ImageOfOperator(k);
      ImageOfName(k);
    } else {
      ImagesForget(s[1..], k);
    }
  }

  lemma {:induction false} EncodeForgets(s: string, k: nat)
    requires k <= |OPERATORS|
    ensures Images(Decode(s, k), 0, 7) == Images(s, 0, 7)
  {
    if k > 0 {
      EncodeForgets(s, k - 1);
      ImagesForget(Decode(s, k - 1), k - 1);
    }
  }

  /** Two expressions get one name exactly when decoding identifies them. */
  lemma CollisionExactly(e: string, f: string)
    ensures Mangle(e) == Mangle(f) <==> Decode(Strip(e), 7) == Decode(Strip(f), 7)
  {
    DemangleMangle(e);
    DemangleMangle(f);
    EncodeIsCharwise(Strip(e), 7);
    EncodeIsCharwise(Strip(f), 7);
    EncodeForgets(Strip(e), 7);
    EncodeForgets(Strip(f), 7);
  }

  lemma {:induction false} StripConcat(s: string, t: string)
    ensures Strip(s + t) == Strip(s) + Strip(t)
  {
    if s == [] {
      assert s + t == t;
    } else {
      assert (s + t)[1..] == s[1..] + t && (s + t)[..1] == s[..1] == [s[0]];
      StripConcat(s[1..], t);
    }
  }

  lemma MangleConcat(s: string, t: string)
    ensures Mangle("") == "_" && Mangle(t) != []
    ensures Mangle(s + t) == Mangle(s) + Mangle(t)[1..]
  {
    assert Strip("") == "" && Images("", 0, 7) == "";
    EncodeIsCharwise(Strip(""), 7);
    hide Strip, Encode, Images;
    StripConcat(s, t);
    EncodeIsCharwise(Strip(s) + Strip(t), 7);
    EncodeIsCharwise(Strip(s), 7);
    EncodeIsCharwise(Strip(t), 7);
    ImagesConcat(Strip(s), Strip(t), 0, 7);
  }

  lemma OneCharacter(c: char)
    ensures Mangle([c]) == "_" + if c == ' ' then "" else Image(c, 0, 7)
  {
    assert [c][..1] == [c] && [c][1..] == [] && Replace([], " ", "") == [];
    assert [c] == " " <==> c == ' ';
    assert Strip([c]) == if c == ' ' then "" else [c];
    EncodeIsCharwise(Strip([c]), 7);
    OneImage(c, 0);
  }

  /** A name spells its text from left to right: an underscore, then a letter or "sub" for each operator, nothing
      for a space, and every other character itself. */
  lemma MangleSpells(s: string, c: char)
    ensures Mangle("") == "_"
    ensures Mangle(s + [c]) == Mangle(s) +
      (if c == '+' then "a" else if c == '-' then "sub" else if c == '*' then "m" else if c == '/' then "d"
       else if c == '(' then "l" else if c == ')' then "r" else if c == '.' then "p" else if c == ' ' then ""
       else [c])
  {
    hide Mangle;
    MangleConcat(s, [c]);
    OneCharacter(c);
  }

  /** A size expression: a symbol keeps its name, anything else is mangled. */
  datatype SizeExpr = Symbol(name: string) | Compound(text: string)

  function SymName(e: SizeExpr): string {
    match e
    case Symbol(n) => n
    case Compound(t) => Mangle(t)
  }

  /** Up to the spaces that mangling drops, the round trip returns the text exactly when no operator name
      occurs in what is left. */
  lemma RoundTripUpToSpaces(e: string)
    ensures Demangle(Mangle(e)) == Strip(e) <==> Clean(Strip(e))
  {
    StripFacts(e);
    StripFacts(Strip(e));
    RoundTripExactly(Strip(e));
  }

  /** What sympy prints for sums, products and quotients of sizes, like "s0 + 1": no operator name in it, and
      symbols that do not start with '_'. */
  ghost predicate Regular(e: SizeExpr) {
    match e
    case Symbol(n) => n != [] && n[0] != '_'
    case Compound(t) => Clean(Strip(t))
  }

  /** The same symbol, or the same compound up to spaces. */
  predicate SameSize(e: SizeExpr, f: SizeExpr) {
    match (e, f)
    case (Symbol(m), Symbol(n)) => m == n
    case (Compound(s), Compound(t)) => Strip(s) == Strip(t)
    case _ => false
  }

  /** Regular size expressions get one name exactly when they are the same up to spaces; no compound is named
      like a symbol. */
  lemma NamesAreDistinct(e: SizeExpr, f: SizeExpr)
    requires Regular(e) && Regular(f)
    ensures SymName(e) == SymName(f) <==> SameSize(e, f)
  {
    if e.Compound? && f.Compound? {
      CollisionExactly(e.text, f.text);
      CleanStays(Strip(e.text), 7);
      CleanStays(Strip(f.text), 7);
    }
  }

  predicate ArithmeticChar(c: char) {
    c == ' ' || '0' <= c <= '9' || c == 's' || c == 'u' || ('(' <= c <= '/' && c != ',')
  }

  /** An arithmetic expression over digits, s/u symbols and the mapped operators, with or without spaces. */
  ghost predicate Arithmetic(t: string) {
    forall i :: 0 <= i < |t| ==> ArithmeticChar(t[i])
  }

  lemma {:induction false} StripKeepsArithmetic(t: string)
    requires Arithmetic(t)
    ensures Arithmetic(Strip(t))
  {
    if t != [] {
      assert t[..1] == [t[0]];
      StripKeepsArithmetic(t[1..]);
    }
  }

  /** Every arithmetic expression comes back, without its spaces. */
  lemma ArithmeticRoundTrip(t: string)
    requires Arithmetic(t)
    ensures Regular(Compound(t)) && Demangle(Mangle(t)) == Strip(t)
    ensures ' ' !in t ==> Demangle(Mangle(t)) == t
  {
    StripKeepsArithmetic(t);
    StripFacts(t);
    forall i | 0 <= i < |LETTERS| ensures LETTERS[i] !in Strip(t) {
      assert !ArithmeticChar(LETTERS[i]);
    }
    assert !HasSub(Strip(t)) by {
      assert !ArithmeticChar('b');
    }
    RoundTripUpToSpaces(t);
  }
}
