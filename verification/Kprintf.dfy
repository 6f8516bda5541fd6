/** `kprintf_level`: the loop over the directives of a format string. */
module Kprintf {
  import opened MachineWords
  import opened CString

  datatype Kind = CHAR | INT | UNSIGNED_INT | ADDRESS | DOUBLE | STRING
  datatype Level = TRACE | INFO | WARN | ERR | FATAL

  /** A variadic argument: a word, or a pointer to a string. */
  datatype Arg = Number(n: nat) | String(s: string)

  const CONTAINER_SIZE: nat := 128

  // ---------- Directives ----------

  /** The character at `i`, NUL at the end of the format. */
  function At(f: string, i: nat): char {
    if i < |f| then f[i] else NUL
  }

  predicate IsFormatter(f: string, i: nat) {
    At(f, i) == '%' && At(f, i + 1) != NUL && !IsSpace(At(f, i + 1))
  }

  /** Unknown letters count as INT. */
  function KindAt(f: string, i: nat): Kind {
    var c := At(f, i + 1);
    if c == 'c' then CHAR
    else if c == 'd' then (if At(f, i + 2) == 'u' then UNSIGNED_INT else INT)
    else if c == 'p' then ADDRESS
    else if c == 'f' then DOUBLE
    else if c == 's' then STRING
    else INT
  }

  function WidthOf(kind: Kind): nat {
    if kind == UNSIGNED_INT then 3 else 2
  }

  /** The first directive at or after `from`, or the end of the format. */
  function NextDirective(f: string, from: nat): (i: nat)
    requires from <= |f|
    ensures from <= i <= |f|
    ensures forall k :: from <= k < i ==> !IsFormatter(f, k)
    ensures i < |f| ==> IsFormatter(f, i)
    decreases |f| - from
  {
    if from == |f| || IsFormatter(f, from) then from else NextDirective(f, from + 1)
  }

  // ---------- Rendering ----------

  predicate Fits(kind: Kind, arg: Arg) {
    if kind == STRING then arg.String? && |arg.s| < CONTAINER_SIZE && NUL !in arg.s
    else arg.Number? && arg.n < WORD_LIMIT
  }

  /** The text of one argument. A NUL character prints as nothing, and so does the number 0. */
  function ArgText(kind: Kind, arg: Arg): string
    requires kind != DOUBLE && Fits(kind, arg)
  {
    if kind == CHAR then (if arg.n % 256 == 0 then [] else [(arg.n % 256) as char])
    else if kind == STRING then arg.s
    else Digits(arg.n)
  }

  /** What the text of an argument is: the decimal digits of a number, a string itself, one character. */
  lemma ArgTextMeans(kind: Kind, arg: Arg)
    requires kind != DOUBLE && Fits(kind, arg)
    ensures var t := ArgText(kind, arg);
            && (kind in {INT, UNSIGNED_INT, ADDRESS} ==>
                  && Parse(t) == arg.n && (t == [] <==> arg.n == 0)
                  && (forall c :: c in t ==> '0' <= c <= '9') && (t != [] ==> t[0] != '0'))
            && (kind == STRING ==> t == arg.s)
            && (kind == CHAR ==> if arg.n % 256 == 0 then t == [] else |t| == 1 && t[0] as int == arg.n % 256)
  {
    if kind in {INT, UNSIGNED_INT, ADDRESS} {
      ParseDigits(arg.n);
    }
  }

  /** Strings of up to 127 characters and 32-bit numbers fit. */
  lemma FitsInNumbers(kind: Kind, arg: Arg)
    ensures Fits(kind, arg) <==>
            if kind == STRING then arg.String? && |arg.s| <= 127 && NUL !in arg.s
            else arg.Number? && arg.n <= 0xFFFF_FFFF
  {
  }

  /** The arguments match the directives from `from` on. `%f` takes none. */
  ghost predicate Matches(f: string, from: nat, args: seq<Arg>)
    requires NUL !in f && from <= |f|
    decreases |f| - from
  {
    var i := NextDirective(f, from);
    if i == |f| then true
    else
      var kind := KindAt(f, i);
      WidthFits(f, i);
      if kind == DOUBLE then Matches(f, i + 2, args)
      else args != [] && Fits(kind, args[0]) && Matches(f, i + WidthOf(kind), args[1..])
  }

  lemma WidthFits(f: string, i: nat)
    requires NUL !in f && i < |f| && IsFormatter(f, i)
    ensures i + WidthOf(KindAt(f, i)) <= |f|
  {
  }

  /** The output from `from` on; `%f` prints what the previous directive printed. */
  ghost function Render(f: string, from: nat, args: seq<Arg>, stale: string): string
    requires NUL !in f && from <= |f| && Matches(f, from, args)
    decreases |f| - from
  {
    var i := NextDirective(f, from);
    if i == |f| then f[from..]
    else
      var kind := KindAt(f, i);
      WidthFits(f, i);
      if kind == DOUBLE then f[from..i] + stale + Render(f, i + 2, args, stale)
      else
        var text := ArgText(kind, args[0]);
        f[from..i] + text + Render(f, i + WidthOf(kind), args[1..], text)
  }

  lemma RenderEnd(f: string, from: nat, args: seq<Arg>, stale: string)
    requires NUL !in f && from <= |f| && Matches(f, from, args) && NextDirective(f, from) == |f|
    ensures Render(f, from, args, stale) == f[from..]
  {
  }

  lemma Regroup(a: string, b: string, c: string, d: string)
    ensures a + (b + c + d) == a + b + c + d
  {
  }

  /** One directive of the loop. */
  lemma RenderStep(f: string, from: nat, args: seq<Arg>, next: nat, stale: string)
    requires NUL !in f && from <= |f| && next <= |args| && Matches(f, from, args[next..])
    requires NextDirective(f, from) < |f|
    ensures var i := NextDirective(f, from);
            var kind, after := KindAt(f, i), i + WidthOf(KindAt(f, i));
            && after <= |f|
            && if kind == DOUBLE then
                 Matches(f, after, args[next..])
                 && Render(f, from, args[next..], stale) == f[from..i] + stale + Render(f, after, args[next..], stale)
               else
                 next < |args| && Fits(kind, args[next]) && Matches(f, after, args[next + 1..])
                 && var text := ArgText(kind, args[next]);
                    Render(f, from, args[next..], stale) == f[from..i] + text + Render(f, after, args[next + 1..], text)
  {
    var i := NextDirective(f, from);
    WidthFits(f, i);
    assert next < |args| ==> args[next..][1..] == args[next + 1..];
  }

  function LevelText(level: Level): string {
    match level
    case TRACE => "TRACE "
    case INFO => "INFO "
    case WARN => "WARN "
    case ERR => "ERR "
    case FATAL => "FATAL "
  }

  lemma LevelNames()
    ensures LevelText(TRACE) == "TRACE " && LevelText(INFO) == "INFO " && LevelText(WARN) == "WARN "
    ensures LevelText(ERR) == "ERR " && LevelText(FATAL) == "FATAL "
  {
  }

  // ---------- The code ----------

  method SearchNextArg(f: string, from: nat) returns (argStart: nat, kind: Kind)
    requires NUL !in f && from <= |f|
    ensures argStart == NextDirective(f, from)
    ensures argStart < |f| ==> kind == KindAt(f, argStart)
  {
    kind := INT;
    argStart := from;
    while argStart < |f|
      invariant from <= argStart <= |f|
      invariant NextDirective(f, from) == NextDirective(f, argStart)
    {
      if IsFormatter(f, argStart) {
        match At(f, argStart + 1) {
          case 'c' => kind := CHAR;
          case 'd' => kind := if At(f, argStart + 2) == 'u' then UNSIGNED_INT else INT;
          case 'p' => kind := ADDRESS;
          case 'f' => kind := DOUBLE;
          case 's' => kind := STRING;
          case _ =>
        }
        return;
      }
      argStart := argStart + 1;
    }
  }

  /** Puts the text of one argument into the container. */
  method FillContainer(container: array<char>, kind: Kind, arg: Arg)
    requires container.Length == CONTAINER_SIZE && kind != DOUBLE && Fits(kind, arg)
    modifies container
    ensures Text(container[..]) == ArgText(kind, arg) && |Text(container[..])| < CONTAINER_SIZE
  {
    if kind == CHAR {
      container[0] := (arg.n % 256) as char;
      container[1] := NUL;
      TextOf(container[..], ArgText(kind, arg));
    } else if kind == STRING {
      StrCpy(container, arg.s);
    } else {
      TenDigits(arg.n);
      Itoa(arg.n, container);
    }
  }

  /** The `switch` and the write of the container: `%f` leaves the old contents and takes no argument. */
  method PrintDirective(container: array<char>, kind: Kind, args: seq<Arg>, next: nat, ghost stale: string)
    returns (text: string, next': nat, ghost stale': string)
    requires container.Length == CONTAINER_SIZE
    requires if kind == DOUBLE then Text(container[..]) == stale && |stale| < CONTAINER_SIZE
             else next < |args| && Fits(kind, args[next])
    modifies container
    ensures text == stale' == (if kind == DOUBLE then stale else ArgText(kind, args[next]))
    ensures next' == (if kind == DOUBLE then next else next + 1)
    ensures Text(container[..]) == stale' && |stale'| < CONTAINER_SIZE
  {
    next' := next;
    if kind != DOUBLE {
      FillContainer(container, kind, args[next]);
      next' := next + 1;
    }
    stale' := Text(container[..]);
    var len := StrLen(container);
    text := container[..len];
  }

  /** Everything sent to the log target, and its length. With no level prefix the container starts
      uninitialised, so the first directive must not be `%f`. */
  method KprintfLevel(level: Level, appendLevel: bool, f: string, args: seq<Arg>) returns (written: int, out: string)
    requires NUL !in f && Matches(f, 0, args)
    requires var i := NextDirective(f, 0); appendLevel || i == |f| || KindAt(f, i) != DOUBLE
    ensures out == (if appendLevel then LevelText(level) else "") + Render(f, 0, args, "")
    ensures written == |out|
  {
    hide Render, Matches, KindAt, ArgText, Text, LevelText, Fits;
    var container := new char[CONTAINER_SIZE];
    out := "";
    if appendLevel {
      out := LevelText(level);
      container[0] := NUL;
      TextOf(container[..], "");
    }
    written := |out|;
    var from, next := 0, 0;
    ghost var ready, stale, target := appendLevel, "", out + Render(f, 0, args, "");
    assert args[0..] == args;
    while true
      invariant 0 <= from <= |f| && 0 <= next <= |args| && written == |out|
      invariant Matches(f, from, args[next..]) && out + Render(f, from, args[next..], stale) == target
      invariant if ready then Text(container[..]) == stale && |stale| < CONTAINER_SIZE else from == 0 && !appendLevel
      decreases |f| - from
    {
      var argStart, kind := SearchNextArg(f, from);
      ghost var before, start := out, from;
      out := out + f[from..argStart];
      written := written + (argStart - from);
      if argStart == |f| {
        RenderEnd(f, from, args[next..], stale);
        return;
      }
      RenderStep(f, from, args, next, stale);
      var text;
      text, next, stale := PrintDirective(container, kind, args, next, stale);
      out := out + text;
      written := written + |text|;
      from, ready := argStart + WidthOf(kind), true;
      Regroup(before, f[start..argStart], text, Render(f, from, args[next..], stale));
    }
  }
}
