/** Format strings: the index loop of `io_printf` against a recursive tokenizer. */
module Formats {
  import opened Printing

  /** A character to print, or a conversion. */
  datatype Token = Plain(c: char) | Convert(c: char)

  const CONVERSIONS: set<char> := {'s', 'c', 'u', 'i', 'd', 'b', 'p', 'x', 'X'}

  /** How many characters the next piece of a format has. */
  function Width(format: string): nat
    requires format != ""
  {
    if format[0] != '%' || |format| == 1 then 1 else 2
  }

  /** A percent sign at the very end stands for itself, two stand for one, and one before any other character
      prints both. */
  function Piece(format: string): seq<Token>
    requires format != ""
  {
    if format[0] != '%' || |format| == 1 then [Plain(format[0])]
    else if format[1] in CONVERSIONS then [Convert(format[1])]
    else if format[1] == '%' then [Plain('%')]
    else [Plain('%'), Plain(format[1])]
  }

  function Tokenize(format: string): seq<Token> {
    if format == "" then [] else Piece(format) + Tokenize(format[Width(format)..])
  }

  // ---------------------------------------------------------------- arguments

  /** An argument: a 32-bit word, or a string. */
  datatype Arg = Word(w: nat) | Text(s: string)

  predicate Fits(c: char, arg: Arg) {
    if c == 's' then arg.Text? else arg.Word? && arg.w <= UINT_MAX
  }

  /** There is an argument of the right kind for every conversion. */
  predicate Typed(tokens: seq<Token>, args: seq<Arg>) {
    if tokens == [] then true
    else if tokens[0].Plain? then Typed(tokens[1..], args)
    else args != [] && Fits(tokens[0].c, args[0]) && Typed(tokens[1..], args[1..])
  }

  /** A word as a signed number. */
  function Signed(w: nat): int {
    if w <= INT_MAX then w else w - 0x1_0000_0000
  }

  function Shown(c: char, arg: Arg): string
    requires c in CONVERSIONS && Fits(c, arg)
  {
    match c
    case 's' => arg.s
    case 'c' => [(arg.w % 256) as char]
    case 'u' => Decimal(arg.w)
    case 'b' => if arg.w != 0 then "true" else "false"
    case 'p' => Hex(arg.w, HexLower)
    case 'x' => Hex(arg.w, HexLower)
    case 'X' => Hex(arg.w, HexUpper)
    case _ => Decimal(Signed(arg.w))
  }

  predicate Proper(tokens: seq<Token>) {
    forall i :: 0 <= i < |tokens| && tokens[i].Convert? ==> tokens[i].c in CONVERSIONS
  }

  function Render(tokens: seq<Token>, args: seq<Arg>): string
    requires Proper(tokens) && Typed(tokens, args)
  {
    if tokens == [] then ""
    else if tokens[0].Plain? then [tokens[0].c] + Render(tokens[1..], args)
    else Shown(tokens[0].c, args[0]) + Render(tokens[1..], args[1..])
  }

  lemma {:induction false} TokenizeProper(format: string)
    ensures Proper(Tokenize(format))
  {
    if format != "" {
      TokenizeProper(format[Width(format)..]);
    }
  }

  /** What a format prints. */
  function Printed(format: string, args: seq<Arg>): string
    requires Typed(Tokenize(format), args)
  {
    TokenizeProper(format);
    Render(Tokenize(format), args)
  }

  // ---------------------------------------------------------------- printing

  method WriteStr(con: Console, str: string)
    modifies con
    ensures con.text == old(con.text) + str
  {
    var i := 0;
    while i < |str|
      invariant i <= |str| && con.text == old(con.text) + str[..i]
    {
      con.Put(str[i]);
      assert str[..i + 1] == str[..i] + [str[i]];
      i := i + 1;
    }
    assert str[..i] == str;
  }

  method WriteBool(con: Console, b: bool)
    modifies con
    ensures con.text == old(con.text) + if b then "true" else "false"
  {
    if b {
      WriteStr(con, "true");
    } else {
      WriteStr(con, "false");
    }
  }

  /** One conversion, by the specifier that follows the percent sign. */
  method Convert1(con: Console, c: char, arg: Arg)
    requires c in CONVERSIONS && Fits(c, arg)
    modifies con
    ensures con.text == old(con.text) + Shown(c, arg)
  {
    hide Hex, Decimal;
    match c
    case 's' => WriteStr(con, arg.s);
    case 'c' => con.Put((arg.w % 256) as char);
    case 'u' => WriteUint(con, arg.w);
    case 'b' => WriteBool(con, arg.w != 0);
    case 'p' => WriteHex(con, arg.w, 'a');
    case 'x' => WriteHex(con, arg.w, 'a');
    case 'X' => WriteHex(con, arg.w, 'A');
    case _ => WriteInt(con, Signed(arg.w));
  }

  /** The rest of the format, with the rest of the arguments, prints what is still to come. */
  ghost predicate ToCome(format: string, args: seq<Arg>, rest: string) {
    Typed(Tokenize(format), args) && Printed(format, args) == rest
  }

  lemma PlainNext(format: string, args: seq<Arg>, rest: string)
    requires format != "" && (format[0] != '%' || |format| == 1) && ToCome(format, args, rest)
    ensures rest != "" && rest[0] == format[0] && ToCome(format[1..], args, rest[1..]) && [rest[0]] + rest[1..] == rest
  {
    assert Tokenize(format)[1..] == Tokenize(format[1..]);
  }

  lemma ConversionNext(format: string, args: seq<Arg>, rest: string)
    requires |format| > 1 && format[0] == '%' && format[1] in CONVERSIONS && ToCome(format, args, rest)
    ensures args != [] && Fits(format[1], args[0])
    ensures exists r :: rest == Shown(format[1], args[0]) + r && ToCome(format[2..], args[1..], r)
  {
    hide Shown;
    assert Tokenize(format)[1..] == Tokenize(format[2..]);
    var r := Printed(format[2..], args[1..]);
    assert rest == Shown(format[1], args[0]) + r && ToCome(format[2..], args[1..], r);
  }

  lemma PercentNext(format: string, args: seq<Arg>, rest: string)
    requires |format| > 1 && format[0] == '%' && format[1] !in CONVERSIONS && ToCome(format, args, rest)
    ensures var shown := if format[1] == '%' then "%" else ['%', format[1]];
      |rest| >= |shown| && rest == shown + rest[|shown|..] && ToCome(format[2..], args, rest[|shown|..])
  {
    hide Tokenize, Render, Typed, Proper;
    var f2 := format[2..];
    NextPiece(format);
    TokenizeProper(f2);
    if format[1] == '%' {
      RenderPlain('%', Tokenize(f2), args);
    } else {
      RenderPlain(format[1], Tokenize(f2), args);
      RenderPlain('%', [Plain(format[1])] + Tokenize(f2), args);
      assert Piece(format) + Tokenize(f2) == [Plain('%')] + ([Plain(format[1])] + Tokenize(f2));
      assert rest == ['%', format[1]] + Printed(f2, args);
    }
  }

  lemma RenderPlain(c: char, tokens: seq<Token>, args: seq<Arg>)
    requires Proper(tokens)
    ensures Proper([Plain(c)] + tokens) && (Typed([Plain(c)] + tokens, args) <==> Typed(tokens, args))
    ensures Typed(tokens, args) ==> Render([Plain(c)] + tokens, args) == [c] + Render(tokens, args)
  {
    assert ([Plain(c)] + tokens)[1..] == tokens;
  }

  /** The index loop prints what the tokenizer says. */
  method Printf(con: Console, format: string, args: seq<Arg>)
    requires Typed(Tokenize(format), args)
    modifies con
    ensures con.text == old(con.text) + Printed(format, args)
  {
    hide Tokenize, Printed, ToCome, Shown, Typed;
    var i, a := 0, 0;
    ghost var rest := Printed(format, args);
    assert ToCome(format, args, rest) by { Reveals(format, args); }
    assert format[0..] == format && args[0..] == args;
    while i < |format|
      invariant i <= |format| && a <= |args| && ToCome(format[i..], args[a..], rest)
      invariant con.text + rest == old(con.text) + Printed(format, args)
      decreases |format| - i
    {
      ghost var f, before := format[i..], con.text;
      assert format[i + 1..] == f[1..];
      if format[i] != '%' || i + 1 >= |format| {
        PlainNext(f, args[a..], rest);
        con.Put(format[i]);
        rest := rest[1..];
        i := i + 1;
        continue;
      }
      i := i + 1;
      assert format[i + 1..] == f[2..];
      var c := format[i];
      if c in CONVERSIONS {
        ConversionNext(f, args[a..], rest);
        ghost var r :| rest == Shown(c, args[a..][0]) + r && ToCome(f[2..], args[a..][1..], r);
        assert args[a..][1..] == args[a + 1..];
        Convert1(con, c, args[a]);
        rest := r;
        a := a + 1;
      } else {
        PercentNext(f, args[a..], rest);
        con.Put('%');
        if c != '%' {
          con.Put(c);
        }
        rest := rest[if c == '%' then 1 else 2..];
      }
      i := i + 1;
    }
    NothingToCome(format[i..], args[a..], rest);
  }

  lemma Reveals(format: string, args: seq<Arg>)
    requires Typed(Tokenize(format), args)
    ensures ToCome(format, args, Printed(format, args))
  {
  }

  lemma NothingToCome(format: string, args: seq<Arg>, rest: string)
    requires format == "" && ToCome(format, args, rest)
    ensures rest == ""
  {
  }

  // ---------------------------------------------------------------- what each specifier prints

  /** The specifiers are these nine letters. */
  lemma NineLetters(c: char)
    ensures c in CONVERSIONS <==>
      c == 's' || c == 'c' || c == 'u' || c == 'i' || c == 'd' || c == 'b' || c == 'p' || c == 'x' || c == 'X'
  {
  }

  lemma OneConversion(c: char, arg: Arg)
    requires c in CONVERSIONS && Fits(c, arg)
    ensures Typed(Tokenize(['%', c]), [arg]) && Printed(['%', c], [arg]) == Shown(c, arg)
  {
    hide Shown, Fits;
    assert Tokenize(['%', c]) == [Convert(c)] by { assert ['%', c][2..] == ""; }
    RenderConvert(c, [], [arg]);
    assert [Convert(c)] + [] == [Convert(c)] && [arg][1..] == [];
    assert Shown(c, arg) + "" == Shown(c, arg);
  }

  /** `%u` prints the word itself. */
  lemma UnsignedPrinted(w: nat)
    requires w < 0x1_0000_0000
    ensures Typed(Tokenize("%u"), [Word(w)])
    ensures var text := Printed("%u", [Word(w)]); IsSigned(text) && ReadDecimal(text) == w && text[0] != '-'
  {
    hide Decimal, ReadDecimal;
    OneConversion('u', Word(w));
    DecimalForm(w);
    DecimalReads(w);
  }

  /** `%i` and `%d` print the number that the word stands for in two's complement. */
  lemma SignedPrinted(w: nat, c: char)
    requires w < 0x1_0000_0000 && (c == 'i' || c == 'd')
    ensures Typed(Tokenize(['%', c]), [Word(w)])
    ensures var text := Printed(['%', c], [Word(w)]);
      && IsSigned(text) && -0x8000_0000 <= ReadDecimal(text) < 0x8000_0000
      && (ReadDecimal(text) - w) % 0x1_0000_0000 == 0 && (text[0] == '-' <==> w >= 0x8000_0000)
  {
    hide Decimal, ReadDecimal, IsSigned;
    OneConversion(c, Word(w));
    DecimalForm(Signed(w));
    DecimalReads(Signed(w));
  }

  /** `%x` and `%p` print a hexadecimal number in lower case, `%X` one in upper case. */
  lemma HexPrinted(w: nat, c: char)
    requires w < 0x1_0000_0000 && (c == 'x' || c == 'X' || c == 'p')
    ensures Typed(Tokenize(['%', c]), [Word(w)])
    ensures var text, style := Printed(['%', c], [Word(w)]), if c == 'X' then HexUpper else HexLower;
      IsHex(text, style) && Value(text[2..], style) == w
  {
    hide Hex, Value, IsHex;
    var style := if c == 'X' then HexUpper else HexLower;
    OneConversion(c, Word(w));
    HexForm(w, style);
    HexReads(w, style);
  }

  /** `%c` prints the character of the lowest byte, `%b` a word for a truth value, and `%s` the string. */
  lemma OthersPrinted(w: nat, str: string)
    requires w < 0x1_0000_0000
    ensures Typed(Tokenize("%c"), [Word(w)]) && Typed(Tokenize("%b"), [Word(w)]) && Typed(Tokenize("%s"), [Text(str)])
    ensures var text := Printed("%c", [Word(w)]); |text| == 1 && text[0] as int == w % 256
    ensures Printed("%b", [Word(w)]) == if w == 0 then "false" else "true"
    ensures Printed("%s", [Text(str)]) == str
  {
    hide Tokenize, Render, Typed;
    OneConversion('c', Word(w));
    OneConversion('b', Word(w));
    OneConversion('s', Text(str));
  }

  /** Any format, piece by piece from the left. */
  lemma PieceByPiece(c: char, format: string, arg: Arg, args: seq<Arg>)
    requires Typed(Tokenize(format), args)
    ensures Typed(Tokenize(""), args) && Printed("", args) == ""
    ensures Typed(Tokenize("%"), args) && Printed("%", args) == "%"
    ensures c != '%' ==>
      Typed(Tokenize([c] + format), args) && Printed([c] + format, args) == [c] + Printed(format, args)
    ensures Typed(Tokenize("%%" + format), args) && Printed("%%" + format, args) == "%" + Printed(format, args)
    ensures c != '%' && c !in CONVERSIONS ==>
      Typed(Tokenize(['%', c] + format), args) && Printed(['%', c] + format, args) == ['%', c] + Printed(format, args)
    ensures c in CONVERSIONS && Fits(c, arg) ==>
      && Typed(Tokenize(['%', c] + format), [arg] + args) && Typed(Tokenize(['%', c]), [arg])
      && Printed(['%', c] + format, [arg] + args) == Printed(['%', c], [arg]) + Printed(format, args)
  {
    hide Render, Typed, Proper, Shown, Fits;
    TokenizeProper(format);
    LonePercent(args);
    if c != '%' {
      assert Tokenize([c] + format) == [Plain(c)] + Tokenize(format) by { assert ([c] + format)[1..] == format; }
      RenderPlain(c, Tokenize(format), args);
    }
    assert ("%%" + format)[2..] == format && (['%', c] + format)[2..] == format;
    assert Tokenize("%%" + format) == [Plain('%')] + Tokenize(format);
    RenderPlain('%', Tokenize(format), args);
    if c in CONVERSIONS && Fits(c, arg) {
      OneConversion(c, arg);
      assert Tokenize(['%', c] + format) == [Convert(c)] + Tokenize(format);
      assert ([arg] + args)[1..] == args;
      RenderConvert(c, Tokenize(format), [arg] + args);
    } else if c != '%' && c !in CONVERSIONS {
      RenderPlain('%', [Plain(c)] + Tokenize(format), args);
      assert Tokenize(['%', c] + format) == [Plain('%')] + ([Plain(c)] + Tokenize(format));
      assert ['%'] + ([c] + Printed(format, args)) == ['%', c] + Printed(format, args);
    }
  }

  lemma LonePercent(args: seq<Arg>)
    ensures Typed(Tokenize(""), args) && Printed("", args) == "" && Typed(Tokenize("%"), args)
      && Printed("%", args) == "%"
  {
    assert Tokenize("%") == [Plain('%')] by { assert "%"[1..] == ""; }
    assert "%" + "" == "%";
  }

  // ---------------------------------------------------------------- properties of formats

  /** The text with its percent signs doubled. */
  function Escaped(text: string): string {
    if text == "" then "" else (if text[0] == '%' then "%%" else [text[0]]) + Escaped(text[1..])
  }

  /** An escaped text needs no argument and prints as the text. */
  lemma {:induction false} EscapedPrintsItself(text: string)
    ensures Typed(Tokenize(Escaped(text)), []) && Printed(Escaped(text), []) == text
  {
    if text != "" {
      EscapedPrintsItself(text[1..]);
      var format, tail := Escaped(text), Escaped(text[1..]);
      assert format[if text[0] == '%' then 2 else 1..] == tail;
      assert Tokenize(format) == [Plain(text[0])] + Tokenize(tail);
      assert Tokenize(format)[1..] == Tokenize(tail);
    }
  }

  /** The format ends in a percent sign that has no partner. */
  predicate Dangling(format: string) {
    if format == "" then false
    else if |format| == 1 then format[0] == '%'
    else if format[0] != '%' then Dangling(format[1..])
    else Dangling(format[2..])
  }

  lemma {:induction false} CompleteConcat(a: string, b: string)
    requires !Dangling(a)
    ensures Tokenize(a + b) == Tokenize(a) + Tokenize(b)
    decreases |a|
  {
    hide Piece, Tokenize;
    if a == "" {
      NothingToTokenize();
      assert a + b == b;
    } else {
      var w := Width(a);
      NextPiece(a);
      NextPiece(a + b);
      SamePiece(a, b);
      RestComplete(a);
      CompleteConcat(a[w..], b);
      hide Width, Dangling;
      assert (a + b)[w..] == a[w..] + b;
      Associative(Piece(a), Tokenize(a[w..]), Tokenize(b));
    }
  }

  lemma NothingToTokenize()
    ensures Tokenize("") == []
  {
  }

  lemma NextPiece(format: string)
    requires format != ""
    ensures Tokenize(format) == Piece(format) + Tokenize(format[Width(format)..])
  {
  }

  lemma RestComplete(format: string)
    requires format != "" && !Dangling(format)
    ensures !Dangling(format[Width(format)..])
  {
  }

  lemma Associative(a: seq<Token>, b: seq<Token>, c: seq<Token>)
    ensures a + (b + c) == a + b + c
  {
  }

  lemma SamePiece(a: string, b: string)
    requires a != "" && (|a| > 1 || a[0] != '%')
    ensures Piece(a + b) == Piece(a) && Width(a + b) == Width(a)
  {
  }

  lemma {:induction false} DanglingConcat(a: string)
    requires Dangling(a)
    ensures Tokenize(a + "d") != Tokenize(a) + Tokenize("d") && |Tokenize(a + "d")| == |Tokenize(a)|
    decreases |a|
  {
    assert |Tokenize("d")| == 1;
    if |a| == 1 {
      assert a == "%" && a + "d" == "%d" && "%d"[2..] == "" && "%"[1..] == "";
    } else if a[0] != '%' {
      DanglingConcat(a[1..]);
      assert (a + "d")[1..] == a[1..] + "d";
    } else {
      DanglingConcat(a[2..]);
      assert (a + "d")[2..] == a[2..] + "d";
    }
  }

  lemma ConcatIffComplete(a: string)
    ensures (forall b :: Tokenize(a + b) == Tokenize(a) + Tokenize(b)) <==> !Dangling(a)
  {
    if Dangling(a) {
      DanglingConcat(a);
    } else {
      forall b ensures Tokenize(a + b) == Tokenize(a) + Tokenize(b) { CompleteConcat(a, b); }
    }
  }

  // ---------------------------------------------------------------- printing in turn

  /** How many arguments a format takes. */
  function Uses(tokens: seq<Token>): nat {
    if tokens == [] then 0 else Uses(tokens[1..]) + if tokens[0].Convert? then 1 else 0
  }

  lemma {:induction false} TypedHasEnough(tokens: seq<Token>, args: seq<Arg>)
    requires Typed(tokens, args)
    ensures |args| >= Uses(tokens)
  {
    if tokens != [] {
      TypedHasEnough(tokens[1..], if tokens[0].Plain? then args else args[1..]);
    }
  }

  /** Tokens with their arguments, followed by other tokens with theirs. */
  lemma {:induction false} RenderConcat(ts: seq<Token>, us: seq<Token>, args: seq<Arg>, more: seq<Arg>)
    requires Proper(ts) && Proper(us) && Typed(ts, args) && |args| == Uses(ts) && Typed(us, more)
    ensures Proper(ts + us) && Typed(ts + us, args + more)
    ensures Render(ts + us, args + more) == Render(ts, args) + Render(us, more)
    decreases |ts|, 1
  {
    hide Render, Typed, Proper, Shown, Fits, Uses;
    UsesOf(ts);
    if ts == [] {
      assert ts + us == us && args + more == more;
      RenderNothing(args);
      assert "" + Render(us, more) == Render(us, more);
    } else if ts[0].Plain? {
      RenderConcatPlain(ts[0].c, ts[1..], us, args, more);
    } else {
      RenderConcatConvert(ts[0].c, ts[1..], us, args, more);
    }
  }

  lemma UsesOf(ts: seq<Token>)
    ensures Uses(ts) == if ts == [] then 0 else Uses(ts[1..]) + if ts[0].Convert? then 1 else 0
    ensures ts != [] ==> ts == [ts[0]] + ts[1..]
  {
  }

  lemma RenderNothing(args: seq<Arg>)
    ensures Proper([]) && Typed([], args) && Render([], args) == ""
  {
  }

  lemma {:induction false} RenderConcatPlain(c: char, ts: seq<Token>, us: seq<Token>, args: seq<Arg>, more: seq<Arg>)
    requires Proper([Plain(c)] + ts) && Proper(us) && Typed([Plain(c)] + ts, args) && |args| == Uses(ts)
      && Typed(us, more)
    ensures var all := ([Plain(c)] + ts) + us;
      && Proper(all) && Typed(all, args + more)
      && Render(all, args + more) == Render([Plain(c)] + ts, args) + Render(us, more)
    decreases |ts| + 1, 0
  {
    hide Render, Typed, Proper, Shown, Fits, Uses;
    ProperRest(Plain(c), ts);
    RenderPlain(c, ts, args);
    RenderConcat(ts, us, args, more);
    RenderPlain(c, ts + us, args + more);
    assert ([Plain(c)] + ts) + us == [Plain(c)] + (ts + us);
  }

  lemma {:induction false} RenderConcatConvert(c: char, ts: seq<Token>, us: seq<Token>, args: seq<Arg>, more: seq<Arg>)
    requires Proper([Convert(c)] + ts) && Proper(us) && Typed([Convert(c)] + ts, args) && |args| == Uses(ts) + 1
    requires Typed(us, more)
    ensures var all := ([Convert(c)] + ts) + us;
      && Proper(all) && Typed(all, args + more)
      && Render(all, args + more) == Render([Convert(c)] + ts, args) + Render(us, more)
    decreases |ts| + 1, 0
  {
    hide Render, Typed, Proper, Shown, Fits, Uses;
    ProperRest(Convert(c), ts);
    RenderConvert(c, ts, args);
    RenderConcat(ts, us, args[1..], more);
    assert (args + more)[1..] == args[1..] + more && (args + more)[0] == args[0];
    RenderConvert(c, ts + us, args + more);
    assert ([Convert(c)] + ts) + us == [Convert(c)] + (ts + us);
  }

  lemma ProperRest(t: Token, rest: seq<Token>)
    requires Proper([t] + rest)
    ensures Proper(rest) && (t.Convert? ==> t.c in CONVERSIONS)
  {
    assert ([t] + rest)[0] == t;
    forall i | 0 <= i < |rest| && rest[i].Convert? ensures rest[i].c in CONVERSIONS {
      assert ([t] + rest)[i + 1] == rest[i];
    }
  }

  lemma RenderConvert(c: char, tokens: seq<Token>, args: seq<Arg>)
    requires Proper(tokens) && c in CONVERSIONS
    ensures Proper([Convert(c)] + tokens)
    ensures Typed([Convert(c)] + tokens, args) <==> args != [] && Fits(c, args[0]) && Typed(tokens, args[1..])
    ensures Typed([Convert(c)] + tokens, args) ==>
      Render([Convert(c)] + tokens, args) == Shown(c, args[0]) + Render(tokens, args[1..])
  {
    assert ([Convert(c)] + tokens)[1..] == tokens;
  }

  /** Arguments that fit a format, as many as it takes. */
  function SomeArgs(tokens: seq<Token>): seq<Arg> {
    if tokens == [] then []
    else (if tokens[0].Plain? then [] else [if tokens[0].c == 's' then Text("") else Word(0)]) + SomeArgs(tokens[1..])
  }

  lemma {:induction false} SomeArgsFit(tokens: seq<Token>)
    ensures Typed(tokens, SomeArgs(tokens)) && |SomeArgs(tokens)| == Uses(tokens)
  {
    if tokens != [] {
      SomeArgsFit(tokens[1..]);
      assert if tokens[0].Plain? then SomeArgs(tokens) == SomeArgs(tokens[1..])
             else SomeArgs(tokens)[1..] == SomeArgs(tokens[1..]);
    }
  }

  /** Format `a` with all its arguments and then `b` with its own print as their concatenation does. */
  ghost predicate PrintsInTurn(a: string, b: string, args: seq<Arg>, more: seq<Arg>) {
    Typed(Tokenize(a), args) && |args| == Uses(Tokenize(a)) && Typed(Tokenize(b), more) ==>
      Typed(Tokenize(a + b), args + more) && Printed(a + b, args + more) == Printed(a, args) + Printed(b, more)
  }

  lemma CompletePrintsInTurn(a: string, b: string, args: seq<Arg>, more: seq<Arg>)
    requires !Dangling(a)
    ensures PrintsInTurn(a, b, args, more)
  {
    hide Tokenize, Typed, Render, Uses, Proper, Dangling;
    CompleteConcat(a, b);
    TokenizeProper(a);
    TokenizeProper(b);
    if Typed(Tokenize(a), args) && |args| == Uses(Tokenize(a)) && Typed(Tokenize(b), more) {
      RenderConcat(Tokenize(a), Tokenize(b), args, more);
    }
  }

  lemma {:induction false} DanglingUses(a: string)
    requires Dangling(a)
    ensures Uses(Tokenize(a + "d")) == Uses(Tokenize(a)) + 1
    decreases |a|
  {
    if |a| == 1 {
      assert a == "%" && a + "d" == "%d";
      assert Tokenize("%d") == [Convert('d')] by { assert "%d"[2..] == ""; }
      assert Tokenize("%") == [Plain('%')] by { assert "%"[1..] == ""; }
    } else {
      var w := Width(a);
      SamePiece(a, "d");
      assert (a + "d")[w..] == a[w..] + "d";
      DanglingUses(a[w..]);
      NextPiece(a);
      NextPiece(a + "d");
      UsesConcat(Piece(a), Tokenize(a[w..]));
      UsesConcat(Piece(a), Tokenize(a[w..] + "d"));
    }
  }

  lemma {:induction false} UsesConcat(ts: seq<Token>, us: seq<Token>)
    ensures Uses(ts + us) == Uses(ts) + Uses(us)
  {
    if ts == [] {
      assert ts + us == us;
    } else {
      assert (ts + us)[1..] == ts[1..] + us;
      UsesConcat(ts[1..], us);
    }
  }

  lemma DanglingFails(a: string)
    requires Dangling(a)
    ensures !PrintsInTurn(a, "d", SomeArgs(Tokenize(a)), [])
  {
    var args := SomeArgs(Tokenize(a));
    SomeArgsFit(Tokenize(a));
    DanglingUses(a);
    assert Tokenize("d") == [Plain('d')] by { assert "d"[1..] == ""; }
    assert args + [] == args;
    if Typed(Tokenize(a + "d"), args) { TypedHasEnough(Tokenize(a + "d"), args); }
  }

  /** Printing two formats one after the other is printing their concatenation, whatever the second one and the
      arguments are, exactly if the first one is complete. */
  lemma InTurnIffComplete(a: string)
    ensures (forall b, args, more :: PrintsInTurn(a, b, args, more)) <==> !Dangling(a)
  {
    hide PrintsInTurn, Dangling;
    if Dangling(a) {
      DanglingFails(a);
      var b, more: seq<Arg> := "d", [];
      assert !PrintsInTurn(a, b, SomeArgs(Tokenize(a)), more);
    } else {
      forall b, args, more ensures PrintsInTurn(a, b, args, more) { CompletePrintsInTurn(a, b, args, more); }
    }
  }
}
