/** What a format string means: text with directives in it, each replaced in order by its argument. */
module FormatTemplate {
  import opened CString
  import opened Kprintf

  /** `Unknown` is a `%` before a letter that names no kind. */
  datatype Piece = Literal(s: string) | Directive(kind: Kind) | Unknown(letter: char) {
    /** An unknown letter takes a number, as `%d` does. */
    function Takes(): Kind {
      if Directive? then kind else INT
    }
  }

  const LETTERS := {'c', 'd', 'p', 'f', 's'}

  function Spelling(piece: Piece): string {
    match piece
    case Literal(s) => s
    case Unknown(letter) => ['%', letter]
    case Directive(CHAR) => "%c"
    case Directive(INT) => "%d"
    case Directive(UNSIGNED_INT) => "%du"
    case Directive(ADDRESS) => "%p"
    case Directive(DOUBLE) => "%f"
    case Directive(STRING) => "%s"
  }

  function Spelled(ps: seq<Piece>): string {
    if ps == [] then "" else Spelling(ps[0]) + Spelled(ps[1..])
  }

  /** Every `%` in the text stands before white space or at the very end. */
  predicate Copied(s: string, rest: string) {
    forall k :: 0 <= k < |s| && s[k] == '%' ==> k + 1 == |s + rest| || IsSpace((s + rest)[k + 1])
  }

  /** The piece can be told apart from what follows it: a literal starts no directive, a `%d` is not followed by
      a `u` that would make it `%du`, and an unknown letter is a visible character that names no kind. */
  ghost predicate Fitting(piece: Piece, rest: string) {
    match piece
    case Literal(s) => NUL !in s && Copied(s, rest)
    case Directive(kind) => kind == INT ==> At(rest, 0) != 'u'
    case Unknown(letter) => letter !in LETTERS && letter != NUL && !IsSpace(letter)
  }

  ghost predicate Readable(ps: seq<Piece>) {
    ps == [] || (Fitting(ps[0], Spelled(ps[1..])) && Readable(ps[1..]))
  }

  /** One argument of the right kind per directive, none for `%f`. */
  ghost predicate Supplied(ps: seq<Piece>, args: seq<Arg>) {
    if ps == [] then true
    else if ps[0].Literal? || ps[0].Takes() == DOUBLE then Supplied(ps[1..], args)
    else args != [] && Fits(ps[0].Takes(), args[0]) && Supplied(ps[1..], args[1..])
  }

  ghost function Printed(ps: seq<Piece>, args: seq<Arg>, stale: string): string
    requires Supplied(ps, args)
  {
    if ps == [] then ""
    else if ps[0].Literal? then ps[0].s + Printed(ps[1..], args, stale)
    else if ps[0].Takes() == DOUBLE then stale + Printed(ps[1..], args, stale)
    else
      var text := ArgText(ps[0].Takes(), args[0]);
      text + Printed(ps[1..], args[1..], text)
  }

  lemma {:induction false} SameNext(f: string, from: nat, to: nat)
    requires from <= to <= |f|
    requires forall k :: from <= k < to ==> !IsFormatter(f, k)
    ensures NextDirective(f, from) == NextDirective(f, to)
    decreases |f| - from
  {
  }

  lemma MatchesCopies(f: string, from: nat, to: nat, args: seq<Arg>)
    requires NUL !in f && from <= to <= |f| && NextDirective(f, from) == NextDirective(f, to) && Matches(f, to, args)
    ensures Matches(f, from, args)
  {
    hide NextDirective, KindAt, Fits;
  }

  /** Text without directives is copied. */
  lemma RenderCopies(f: string, from: nat, to: nat, args: seq<Arg>, stale: string)
    requires NUL !in f && from <= to <= |f|
    requires forall k :: from <= k < to ==> !IsFormatter(f, k)
    requires Matches(f, to, args)
    ensures Matches(f, from, args) && Render(f, from, args, stale) == f[from..to] + Render(f, to, args, stale)
  {
    hide Render, Matches, NextDirective, KindAt, IsFormatter, ArgText, Fits;
    SameNext(f, from, to);
    MatchesCopies(f, from, to, args);
    var i := NextDirective(f, from);
    assert args[0..] == args;
    if i == |f| {
      RenderEnd(f, from, args, stale);
      RenderEnd(f, to, args, stale);
      assert f[from..] == f[from..to] + f[to..];
    } else {
      RenderStep(f, from, args, 0, stale);
      RenderStep(f, to, args, 0, stale);
      assert f[from..i] == f[from..to] + f[to..i];
      var kind, after := KindAt(f, i), i + WidthOf(KindAt(f, i));
      var text := if kind == DOUBLE then stale else ArgText(kind, args[0]);
      Regroup(f[from..to], f[to..i], text, Render(f, after, if kind == DOUBLE then args else args[0 + 1..], text));
    }
  }

  lemma {:induction false} SpelledHasNoNul(ps: seq<Piece>)
    requires Readable(ps)
    ensures NUL !in Spelled(ps)
  {
    if ps != [] {
      SpelledHasNoNul(ps[1..]);
    }
  }

  /** The letters after `%` are read back as the directive that was written. */
  lemma DirectiveRead(f: string, from: nat, piece: Piece, rest: string)
    requires !piece.Literal? && Fitting(piece, rest)
    requires from <= |f| && f[from..] == Spelling(piece) + rest
    ensures IsFormatter(f, from) && KindAt(f, from) == piece.Takes()
    ensures f[from + WidthOf(piece.Takes())..] == rest
  {
    var s := Spelling(piece);
    assert |s| == WidthOf(piece.Takes());
    assert forall k :: from <= k < |f| ==> f[k] == f[from..][k - from];
    assert f[from + |s|..] == f[from..][|s|..];
  }

  lemma LiteralRead(f: string, from: nat, s: string, rest: string)
    requires from <= |f| && f[from..] == s + rest && Copied(s, rest)
    ensures var to := from + |s|;
            to <= |f| && f[to..] == rest && f[from..to] == s && forall k :: from <= k < to ==> !IsFormatter(f, k)
  {
    var to := from + |s|;
    assert f[to..] == f[from..][|s|..];
    assert f[from..to] == f[from..][..|s|];
    assert forall k :: from <= k < |f| ==> f[k] == (s + rest)[k - from];
  }

  /** A directive at the front is printed first. */
  lemma RenderDirective(f: string, from: nat, kind: Kind, args: seq<Arg>, stale: string)
    requires NUL !in f && from < |f| && IsFormatter(f, from) && KindAt(f, from) == kind
    requires from + WidthOf(kind) <= |f|
    requires if kind == DOUBLE then Matches(f, from + 2, args)
             else args != [] && Fits(kind, args[0]) && Matches(f, from + WidthOf(kind), args[1..])
    ensures Matches(f, from, args)
    ensures Render(f, from, args, stale)
            == if kind == DOUBLE then stale + Render(f, from + 2, args, stale)
               else ArgText(kind, args[0]) + Render(f, from + WidthOf(kind), args[1..], ArgText(kind, args[0]))
  {
    assert NextDirective(f, from) == from;
    MatchesDirective(f, from, kind, args);
    hide Render, Matches, NextDirective, IsFormatter, KindAt, ArgText, Fits;
    assert args[0..] == args && (args != [] ==> args[0 + 1..] == args[1..]);
    RenderStep(f, from, args, 0, stale);
    NothingBefore(f, from, stale);
    if kind != DOUBLE {
      NothingBefore(f, from, ArgText(kind, args[0]));
    }
  }

  lemma NothingBefore(f: string, from: nat, text: string)
    requires from <= |f|
    ensures f[from..from] + text == text
  {
  }

  lemma MatchesDirective(f: string, from: nat, kind: Kind, args: seq<Arg>)
    requires NUL !in f && from < |f| && IsFormatter(f, from) && KindAt(f, from) == kind
    requires from + WidthOf(kind) <= |f|
    requires if kind == DOUBLE then Matches(f, from + 2, args)
             else args != [] && Fits(kind, args[0]) && Matches(f, from + WidthOf(kind), args[1..])
    ensures Matches(f, from, args)
  {
  }

  lemma {:induction false} PrintsLiteral(f: string, from: nat, ps: seq<Piece>, args: seq<Arg>, stale: string)
    requires NUL !in f && from <= |f| && f[from..] == Spelled(ps)
    requires Readable(ps) && Supplied(ps, args)
    requires ps != [] && ps[0].Literal?
    ensures Matches(f, from, args) && Render(f, from, args, stale) == Printed(ps, args, stale)
    decreases |ps|, 0
  {
    hide Render, Matches, NextDirective, IsFormatter, Spelled, Readable, Supplied, Printed, Copied;
    LiteralFirst(ps, args, stale);
    var s, to := ps[0].s, from + |ps[0].s|;
    LiteralRead(f, from, s, Spelled(ps[1..]));
    RenderPrints(f, to, ps[1..], args, stale);
    RenderCopies(f, from, to, args, stale);
  }

  lemma LiteralFirst(ps: seq<Piece>, args: seq<Arg>, stale: string)
    requires ps != [] && ps[0].Literal? && Readable(ps) && Supplied(ps, args)
    ensures Copied(ps[0].s, Spelled(ps[1..])) && Spelled(ps) == ps[0].s + Spelled(ps[1..])
    ensures Readable(ps[1..]) && Supplied(ps[1..], args)
    ensures Printed(ps, args, stale) == ps[0].s + Printed(ps[1..], args, stale)
  {
    hide Copied;
  }

  lemma {:induction false} PrintsDirective(f: string, from: nat, ps: seq<Piece>, args: seq<Arg>, stale: string)
    requires NUL !in f && from <= |f| && f[from..] == Spelled(ps)
    requires Readable(ps) && Supplied(ps, args)
    requires ps != [] && !ps[0].Literal?
    ensures Matches(f, from, args) && Render(f, from, args, stale) == Printed(ps, args, stale)
    decreases |ps|, 0
  {
    hide Render, Matches, NextDirective, IsFormatter, KindAt, ArgText, Fits, Spelling, Fitting, Copied;
    var kind := ps[0].Takes();
    DirectiveRead(f, from, ps[0], Spelled(ps[1..]));
    DirectiveInside(f, from);
    WidthFits(f, from);
    var to := from + WidthOf(kind);
    if kind == DOUBLE {
      RenderPrints(f, to, ps[1..], args, stale);
    } else {
      RenderPrints(f, to, ps[1..], args[1..], ArgText(kind, args[0]));
    }
    RenderDirective(f, from, kind, args, stale);
  }

  lemma DirectiveInside(f: string, from: nat)
    requires IsFormatter(f, from)
    ensures from < |f|
  {
  }

  /** The loop of `kprintf_level` prints a readable template piece by piece. */
  lemma {:induction false} RenderPrints(f: string, from: nat, ps: seq<Piece>, args: seq<Arg>, stale: string)
    requires NUL !in f && from <= |f| && f[from..] == Spelled(ps)
    requires Readable(ps) && Supplied(ps, args)
    ensures Matches(f, from, args) && Render(f, from, args, stale) == Printed(ps, args, stale)
    decreases |ps|, 1
  {
    if ps == [] {
      assert NextDirective(f, from) == |f|;
    } else if ps[0].Literal? {
      PrintsLiteral(f, from, ps, args, stale);
    } else {
      PrintsDirective(f, from, ps, args, stale);
    }
  }

  /** The whole of a format string. */
  lemma TemplatePrints(ps: seq<Piece>, args: seq<Arg>, stale: string)
    requires Readable(ps) && Supplied(ps, args)
    ensures NUL !in Spelled(ps) && Matches(Spelled(ps), 0, args)
    ensures Render(Spelled(ps), 0, args, stale) == Printed(ps, args, stale)
  {
    SpelledHasNoNul(ps);
    assert Spelled(ps)[0..] == Spelled(ps);
    RenderPrints(Spelled(ps), 0, ps, args, stale);
  }

  // ---------- Every format is a template ----------

  /** The piece that the directive at `i` spells. */
  function PieceAt(f: string, i: nat): Piece
    requires i + 1 < |f|
  {
    if f[i + 1] in LETTERS then Directive(KindAt(f, i)) else Unknown(f[i + 1])
  }

  lemma PieceReads(f: string, i: nat)
    requires NUL !in f && i < |f| && IsFormatter(f, i)
    ensures i + 1 < |f| && i + WidthOf(KindAt(f, i)) <= |f|
    ensures var piece, rest := PieceAt(f, i), f[i + WidthOf(KindAt(f, i))..];
            !piece.Literal? && piece.Takes() == KindAt(f, i) && Fitting(piece, rest) && f[i..] == Spelling(piece) + rest
  {
    WidthFits(f, i);
    var piece := PieceAt(f, i);
    assert f[i] in f && f[i + 1] in f;
    assert f[i..] == f[i..i + WidthOf(KindAt(f, i))] + f[i + WidthOf(KindAt(f, i))..];
  }

  lemma TextIsCopied(f: string, from: nat, to: nat)
    requires NUL !in f && from <= to <= |f| && forall k :: from <= k < to ==> !IsFormatter(f, k)
    ensures Fitting(Literal(f[from..to]), f[to..]) && f[from..] == f[from..to] + f[to..]
  {
    var s, rest := f[from..to], f[to..];
    assert f[from..] == s + rest;
    forall k | 0 <= k < |s| && s[k] == '%'
      ensures k + 1 == |s + rest| || IsSpace((s + rest)[k + 1])
    {
      assert !IsFormatter(f, from + k);
      if k + 1 < |s + rest| {
        assert (s + rest)[k + 1] == f[from..][k + 1] == f[from + k + 1];
        assert f[from + k + 1] in f;
      }
    }
  }

  /** A readable template that spells the text and takes the arguments. */
  ghost predicate Reads(ps: seq<Piece>, text: string, args: seq<Arg>) {
    Readable(ps) && Spelled(ps) == text && Supplied(ps, args)
  }

  lemma ReadsMore(piece: Piece, ps: seq<Piece>, text: string, args: seq<Arg>)
    requires Fitting(piece, text)
    requires if piece.Literal? || piece.Takes() == DOUBLE then Reads(ps, text, args)
             else args != [] && Fits(piece.Takes(), args[0]) && Reads(ps, text, args[1..])
    ensures Reads([piece] + ps, Spelling(piece) + text, args)
  {
    hide Fitting, Fits, Spelling;
    assert ([piece] + ps)[1..] == ps;
  }

  lemma MatchesNext(f: string, from: nat, args: seq<Arg>)
    requires NUL !in f && from <= |f| && Matches(f, from, args) && NextDirective(f, from) < |f|
    ensures var i := NextDirective(f, from);
            var kind, after := KindAt(f, i), i + WidthOf(KindAt(f, i));
            && IsFormatter(f, i) && after <= |f|
            && if kind == DOUBLE then Matches(f, after, args)
               else args != [] && Fits(kind, args[0]) && Matches(f, after, args[1..])
  {
    WidthFits(f, NextDirective(f, from));
  }

  lemma ReadsNothing(args: seq<Arg>)
    ensures Reads([], "", args)
  {
  }

  /** Any format without NUL, from any position on, is the spelling of a readable template that takes the
      same arguments. */
  lemma {:induction false} EveryFormatReads(f: string, from: nat, args: seq<Arg>) returns (ps: seq<Piece>)
    requires NUL !in f && from <= |f| && Matches(f, from, args)
    ensures Reads(ps, f[from..], args)
    decreases |f| - from
  {
    hide Matches, Reads, Fitting, IsFormatter, KindAt, Fits, PieceAt;
    var i := NextDirective(f, from);
    TextIsCopied(f, from, i);
    if i == |f| {
      ReadsNothing(args);
      ps := [];
    } else {
      MatchesNext(f, from, args);
      PieceReads(f, i);
      var piece, after := PieceAt(f, i), i + WidthOf(KindAt(f, i));
      ps := EveryFormatReads(f, after, if KindAt(f, i) == DOUBLE then args else args[1..]);
      ReadsMore(piece, ps, f[after..], args);
      ps := [piece] + ps;
    }
    assert Reads(ps, f[i..], args);
    ReadsMore(Literal(f[from..i]), ps, f[i..], args);
    ps := [Literal(f[from..i])] + ps;
  }

  /** So `kprintf_level` prints every format as a template with its directives replaced in order. */
  lemma EveryFormatPrints(f: string, args: seq<Arg>, stale: string) returns (ps: seq<Piece>)
    requires NUL !in f && Matches(f, 0, args)
    ensures Reads(ps, f, args) && Render(f, 0, args, stale) == Printed(ps, args, stale)
  {
    ps := EveryFormatReads(f, 0, args);
    assert f[0..] == f;
    TemplatePrints(ps, args, stale);
  }
}
