/** Short file names: parsing "NAME.EXT" into padded fields, and showing them. */
module FatNames {
  import opened FatVolume

  const SPACE: Byte := 0x20
  const DOT: Byte := 0x2E

  datatype ShortName = ShortName(name: Bytes, ext: Bytes)

  /** Panic: an extension of more than three bytes is written past the end of its field. */
  datatype Parsed = Good(file: ShortName) | Bad(error: NameError) | Panic

  predicate Ascii(s: Bytes) {
    forall i :: 0 <= i < |s| ==> s[i] < 128
  }

  /** The characters that `parse` rejects. */
  predicate Invalid(b: Byte) {
    || b <= 0x20 || b == 0x22 || 0x2A <= b <= 0x2C || b == 0x2F || 0x3A <= b <= 0x3F || 0x5B <= b <= 0x5D || b == 0x7C
  }

  predicate AllValid(s: Bytes) {
    forall i :: 0 <= i < |s| ==> !Invalid(s[i])
  }

  function UpperByte(b: Byte): Byte {
    if 0x61 <= b <= 0x7A then b - 0x20 else b
  }

  function Upper(s: Bytes): (r: Bytes)
    ensures |r| == |s| && forall i :: 0 <= i < |s| ==> r[i] == UpperByte(s[i])
  {
    seq(|s|, i requires 0 <= i < |s| => UpperByte(s[i]))
  }

  /** The position of the first dot, or the length if there is none. */
  function DotAt(s: Bytes): (k: nat)
    ensures k <= |s| && (k < |s| ==> s[k] == DOT) && forall i :: 0 <= i < k ==> s[i] != DOT
  {
    if s == [] then 0 else if s[0] == DOT then 0 else 1 + DotAt(s[1..])
  }

  lemma {:induction false} DotIs(s: Bytes, k: nat)
    requires k <= |s| && (k < |s| ==> s[k] == DOT) && forall i :: 0 <= i < k ==> s[i] != DOT
    ensures DotAt(s) == k
    decreases k
  {
    if k > 0 {
      DotIs(s[1..], k - 1);
    }
  }

  function Spaces(n: nat): (r: Bytes)
    ensures |r| == n && forall i :: 0 <= i < n ==> r[i] == SPACE
  {
    seq(n, _ => SPACE)
  }

  function Pad(s: Bytes, n: nat): Bytes
    requires |s| <= n
  {
    s + Spaces(n - |s|)
  }

  const BLANK := ShortName(Spaces(8), Spaces(3))

  /** Parsing any name, given its Unicode upper case. */
  function ParseAs(name: Bytes, upper: Bytes): Parsed {
    if name == [] then Bad(FilenameEmpty)
    else if !AllValid(name) then Bad(InvalidCharacter)
    else
      var dot := DotAt(upper);
      if dot < |upper| then
        if dot > 8 then Bad(NameTooLong)
        else if |upper| - dot - 1 > 3 then Panic
        else Good(ShortName(Pad(upper[..dot], 8), Pad(upper[dot + 1..], 3)))
      else if |upper| > 8 then Bad(NameTooLong)
      else Good(ShortName(Pad(upper, 8), Spaces(3)))
  }

  /** Parsing an ASCII name. */
  function Parse(name: Bytes): Parsed
    requires Ascii(name)
  {
    ParseAs(name, Upper(name))
  }

  predicate Whitespace(b: Byte) {
    b == SPACE || 9 <= b <= 13
  }

  function TrimEnd(s: Bytes): (r: Bytes)
    ensures r <= s && (r != [] ==> !Whitespace(r[|r| - 1]))
  {
    if s != [] && Whitespace(s[|s| - 1]) then TrimEnd(s[..|s| - 1]) else s
  }

  function Show(f: ShortName): Bytes
    requires f.ext != []
  {
    if f.ext[0] == SPACE then TrimEnd(f.name) else TrimEnd(f.name) + [DOT] + TrimEnd(f.ext)
  }

  // ---------------------------------------------------------------------
  // Properties
  // ---------------------------------------------------------------------

  predicate Sized(f: ShortName) {
    |f.name| == 8 && |f.ext| == 3 && Ascii(f.name) && Ascii(f.ext)
  }

  predicate NoLower(s: Bytes) {
    forall i :: 0 <= i < |s| ==> !(0x61 <= s[i] <= 0x7A)
  }

  /** Valid upper-case characters, then spaces only; no dot in the base name. */
  predicate WellFormed(f: ShortName) {
    && Sized(f)
    && var base, ext := TrimEnd(f.name), TrimEnd(f.ext);
       && f.name == Pad(base, 8) && f.ext == Pad(ext, 3)
       && AllValid(base) && AllValid(ext) && NoLower(base) && NoLower(ext)
       && DOT !in base
  }

  lemma {:induction false} TrimPad(s: Bytes, n: nat)
    requires |s| <= n && AllValid(s)
    ensures TrimEnd(Pad(s, n)) == s
    decreases n
  {
    if |s| == n {
      assert Pad(s, n) == s;
    } else {
      assert Pad(s, n)[..n - 1] == Pad(s, n - 1);
      TrimPad(s, n - 1);
    }
  }

  lemma UpperKeeps(s: Bytes)
    requires AllValid(s) && Ascii(s)
    ensures AllValid(Upper(s)) && NoLower(Upper(s)) && Ascii(Upper(s))
  {
  }

  /** The parts of a name that parses. */
  lemma Parts(name: Bytes) returns (base: Bytes, ext: Bytes)
    requires Ascii(name) && Parse(name).Good?
    ensures |base| <= 8 && |ext| <= 3 && Parse(name).file == ShortName(Pad(base, 8), Pad(ext, 3))
    ensures AllValid(base) && AllValid(ext) && NoLower(base) && NoLower(ext) && Ascii(base) && Ascii(ext)
    ensures DOT !in base
    ensures Upper(name) == if DotAt(Upper(name)) == |name| then base else base + [DOT] + ext
    ensures DotAt(Upper(name)) == |base|
    ensures DotAt(Upper(name)) == |name| ==> ext == []
  {
    var upper := Upper(name);
    UpperKeeps(name);
    hide Upper;
    hide Invalid;
    var dot := DotAt(upper);
    base, ext := upper[..dot], if dot < |upper| then upper[dot + 1..] else [];
    if dot == |upper| {
      assert base == upper;
      assert Pad([], 3) == Spaces(3);
    } else {
      assert upper == base + [DOT] + ext;
      SuffixIsFine(upper, dot);
    }
  }

  lemma SuffixIsFine(s: Bytes, k: nat)
    requires k < |s| && AllValid(s) && NoLower(s) && Ascii(s)
    ensures AllValid(s[k + 1..]) && NoLower(s[k + 1..]) && Ascii(s[k + 1..])
  {
  }

  lemma PadIsAscii(s: Bytes, n: nat)
    requires |s| <= n && Ascii(s)
    ensures |Pad(s, n)| == n && Ascii(Pad(s, n))
  {
  }

  /** Whatever parses is well formed; the error for a misplaced period is never given. */
  lemma ParsedIsWellFormed(name: Bytes)
    requires Ascii(name)
    ensures Parse(name).Good? ==> WellFormed(Parse(name).file)
    ensures Parse(name) != Bad(MisplacedPeriod)
  {
    if Parse(name).Good? {
      var base, ext := Parts(name);
      hide Parse;
      TrimPad(base, 8);
      TrimPad(ext, 3);
      PadIsAscii(base, 8);
      PadIsAscii(ext, 3);
      hide Pad;
    }
  }

  lemma UpperOfUpper(s: Bytes)
    requires NoLower(s)
    ensures Upper(s) == s
  {
  }

  /** Of all 8.3 names, exactly the well-formed ones other than the blank name survive being shown
      and parsed again. */
  lemma ShownParsesBack(f: ShortName)
    requires Sized(f)
    ensures Ascii(Show(f)) && (Parse(Show(f)) == Good(f) <==> WellFormed(f) && f != BLANK)
  {
    assert TrimEnd(f.name) <= f.name && TrimEnd(f.ext) <= f.ext;
    BlankShowsNothing();
    if Parse(Show(f)) == Good(f) {
      ParsedIsWellFormed(Show(f));
    }
    if WellFormed(f) && f != BLANK {
      GoodParsesBack(f);
    }
  }

  lemma BlankShowsNothing()
    ensures Show(BLANK) == []
  {
    TrimPad([], 8);
    assert Pad([], 8) == Spaces(8);
  }

  /** The name "." parses to the blank name, which is shown as nothing, and nothing does not parse. */
  lemma DotIsBlank()
    ensures Parse([DOT]) == Good(BLANK) && Show(BLANK) == [] && Parse([]) == Bad(FilenameEmpty)
  {
    BlankShowsNothing();
    assert Upper([DOT]) == [DOT];
    assert Pad([], 8) == Spaces(8) && Pad([], 3) == Spaces(3);
  }

  lemma BlankBase(f: ShortName)
    requires WellFormed(f) && f.ext[0] == SPACE
    ensures f.ext == Spaces(3) && TrimEnd(f.ext) == []
    ensures TrimEnd(f.name) == [] <==> f == BLANK
  {
    assert TrimEnd(f.ext) == [];
    assert Pad([], 3) == Spaces(3) && Pad([], 8) == Spaces(8);
    BlankShowsNothing();
  }

  lemma PlainParses(base: Bytes)
    requires base != [] && |base| <= 8 && AllValid(base) && NoLower(base) && Ascii(base) && DOT !in base
    ensures Parse(base) == Good(ShortName(Pad(base, 8), Spaces(3)))
  {
    UpperOfUpper(base);
    DotIs(base, |base|);
  }

  lemma DottedParses(base: Bytes, ext: Bytes)
    requires |base| <= 8 && AllValid(base) && NoLower(base) && Ascii(base) && DOT !in base
    requires |ext| <= 3 && AllValid(ext) && NoLower(ext) && Ascii(ext)
    ensures Ascii(base + [DOT] + ext) && Parse(base + [DOT] + ext) == Good(ShortName(Pad(base, 8), Pad(ext, 3)))
  {
    var name := base + [DOT] + ext;
    assert name[|base|] == DOT && name[..|base|] == base && name[|base| + 1..] == ext;
    UpperOfUpper(name);
    DotIs(name, |base|);
  }

  lemma GoodParsesBack(f: ShortName)
    requires WellFormed(f) && f != BLANK
    ensures Ascii(Show(f)) && Parse(Show(f)) == Good(f)
  {
    var base, ext := TrimEnd(f.name), TrimEnd(f.ext);
    hide Parse;
    if f.ext[0] == SPACE {
      BlankBase(f);
      PlainParses(base);
    } else {
      assert ext != [];
      DottedParses(base, ext);
    }
  }

  /** Showing a parsed name gives the name in upper case, without a dot at the end. */
  lemma ParsedShowsBack(name: Bytes)
    requires Ascii(name) && Parse(name).Good?
    ensures var upper := Upper(name);
            Show(Parse(name).file) == if DotAt(upper) == |upper| - 1 then upper[..|upper| - 1] else upper
  {
    var base, ext := Parts(name);
    hide Parse;
    hide Upper;
    hide Invalid;
    hide TrimEnd;
    TrimPad(base, 8);
    TrimPad(ext, 3);
    if ext != [] {
      FirstIsNoSpace(ext);
    }
  }

  lemma FirstIsNoSpace(ext: Bytes)
    requires ext != [] && |ext| <= 3 && AllValid(ext)
    ensures Pad(ext, 3)[0] == ext[0] != SPACE
  {
  }

  /** The name splits at its first dot into a base that fits and an extension that does not. */
  predicate Overlong(name: Bytes, base: Bytes, ext: Bytes) {
    name == base + [DOT] + ext && DOT !in base && |base| <= 8 && |ext| > 3
  }

  /** Of any name, ASCII or not, parsing panics exactly if the upper case has a base that fits and an
      extension that does not; the error for a misplaced period is never given. */
  lemma PanicOfAnyName(name: Bytes, upper: Bytes)
    ensures ParseAs(name, upper) != Bad(MisplacedPeriod)
    ensures ParseAs(name, upper).Panic?
       <==> name != [] && AllValid(name) && exists base, ext :: Overlong(upper, base, ext)
  {
    var dot := DotAt(upper);
    if ParseAs(name, upper).Panic? {
      assert Overlong(upper, upper[..dot], upper[dot + 1..]);
    }
    if base, ext :| Overlong(upper, base, ext) {
      assert upper[|base|] == DOT && upper[..|base|] == base;
      DotIs(upper, |base|);
    }
  }

  /** Parsing an ASCII name writes past the end of the extension field exactly if it is valid, its
      base fits and its extension is too long. */
  lemma PanicExactly(name: Bytes)
    requires Ascii(name)
    ensures Parse(name).Panic? <==> AllValid(name) && exists base, ext :: Overlong(name, base, ext)
  {
    var dot := DotAt(Upper(name));
    if Parse(name).Panic? {
      OverlongParts(name, dot);
      assert Overlong(name, name[..dot], name[dot + 1..]);
    }
    if base, ext :| AllValid(name) && Overlong(name, base, ext) {
      DottedAt(name, base, ext);
    }
  }

  /** The name "a.text" panics. */
  lemma LongExtensionPanics()
    ensures var name := [0x61, DOT, 0x74, 0x65, 0x78, 0x74];
            Ascii(name) && Overlong(name, [0x61], [0x74, 0x65, 0x78, 0x74]) && Parse(name).Panic?
  {
    var name: Bytes := [0x61, DOT, 0x74, 0x65, 0x78, 0x74];
    assert name == [0x61] + [DOT] + [0x74, 0x65, 0x78, 0x74];
    assert Overlong(name, [0x61], [0x74, 0x65, 0x78, 0x74]);
    PanicExactly(name);
  }

  lemma OverlongParts(name: Bytes, dot: nat)
    requires dot < |name| && dot == DotAt(Upper(name))
    ensures name == name[..dot] + [DOT] + name[dot + 1..] && DOT !in name[..dot]
  {
    assert Upper(name)[dot] == UpperByte(name[dot]);
    forall i | 0 <= i < dot ensures name[i] != DOT {
      assert Upper(name)[i] == UpperByte(name[i]);
    }
  }

  lemma DottedAt(name: Bytes, base: Bytes, ext: Bytes)
    requires name == base + [DOT] + ext && DOT !in base
    ensures DotAt(Upper(name)) == |base|
  {
    assert name[|base|] == DOT;
    forall i | 0 <= i < |base| ensures Upper(name)[i] != DOT {
      assert name[i] == base[i] && base[i] in base;
    }
    DotIs(Upper(name), |base|);
  }

  /** Case makes no difference. */
  lemma ParseIgnoresCase(a: Bytes, b: Bytes)
    requires Ascii(a) && Ascii(b) && Upper(a) == Upper(b)
    ensures Parse(a) == Parse(b)
  {
    assert |Upper(a)| == |Upper(b)|;
    forall i | 0 <= i < |a| ensures Invalid(a[i]) <==> Invalid(b[i]) {
      assert Upper(a)[i] == Upper(b)[i];
    }
  }

  // ---------------------------------------------------------------------
  // Characters and errors, one by one
  // ---------------------------------------------------------------------

  /** The bytes that a name must not contain. */
  predicate Forbidden(b: Byte) {
    || b < 0x20
    || b in {0x20, 0x22, 0x2A, 0x2B, 0x2C, 0x2F, 0x3A, 0x3B, 0x3C, 0x3D, 0x3E, 0x3F, 0x5B, 0x5C, 0x5D, 0x7C}
  }

  lemma InvalidIs(b: Byte)
    ensures Invalid(b) <==> Forbidden(b)
  {
  }

  predicate HasForbidden(name: Bytes) {
    exists i :: 0 <= i < |name| && Forbidden(name[i])
  }

  lemma AllValidIs(name: Bytes)
    ensures AllValid(name) <==> !HasForbidden(name)
  {
    forall i | 0 <= i < |name| ensures Invalid(name[i]) <==> Forbidden(name[i]) {
      InvalidIs(name[i]);
    }
    hide Invalid;
    hide Forbidden;
  }

  /** The letters a to z become A to Z, and nothing else changes. */
  lemma UpperIs(s: Bytes, i: nat)
    requires i < |s|
    ensures Upper(s)[i] == if 'a' as int <= s[i] <= 'z' as int then s[i] - 'a' as int + 'A' as int else s[i]
  {
  }

  /** The part of a name before its first dot. */
  predicate IsBase(name: Bytes, base: Bytes) {
    base <= name && DOT !in base && (|base| == |name| || name[|base|] == DOT)
  }

  lemma BaseIsUpToDot(name: Bytes, base: Bytes)
    requires IsBase(name, base)
    ensures DotAt(Upper(name)) == |base|
  {
    forall i | 0 <= i < |base| ensures Upper(name)[i] != DOT {
      assert name[i] == base[i] && base[i] in base;
    }
    DotIs(Upper(name), |base|);
  }

  /** Which error is given when. */
  lemma ErrorsExactly(name: Bytes)
    requires Ascii(name)
    ensures Parse(name) == Bad(FilenameEmpty) <==> name == []
    ensures Parse(name) == Bad(InvalidCharacter) <==> HasForbidden(name)
    ensures Parse(name) == Bad(NameTooLong) <==> !HasForbidden(name) && exists base :: IsBase(name, base) && |base| > 8
  {
    hide AllValid;
    hide HasForbidden;
    hide Upper;
    hide IsBase;
    AllValidIs(name);
    NothingForbidden();
    var dot := DotAt(Upper(name));
    FirstDotIsBase(name);
    UpperKeepsSize(name);
    forall base | IsBase(name, base) ensures |base| == dot {
      BaseIsUpToDot(name, base);
    }
  }

  lemma NothingForbidden()
    ensures !HasForbidden([])
  {
  }

  lemma UpperKeepsSize(name: Bytes)
    ensures |Upper(name)| == |name|
  {
  }

  lemma FirstDotIsBase(name: Bytes)
    ensures IsBase(name, name[..DotAt(Upper(name))])
  {
    var dot := DotAt(Upper(name));
    forall i | 0 <= i < dot ensures name[i] != DOT {
      assert Upper(name)[i] == UpperByte(name[i]);
    }
    if dot < |name| {
      assert Upper(name)[dot] == UpperByte(name[dot]);
    }
  }

  // ---------------------------------------------------------------------
  // The loops
  // ---------------------------------------------------------------------

  /** Copy into a field of spaces; false if an index is out of bounds. */
  method FillField(s: Bytes, n: nat) returns (field: array<Byte>, ok: bool)
    ensures fresh(field) && field.Length == n && (ok <==> |s| <= n)
    ensures ok ==> field[..] == Pad(s, n)
  {
    field := new Byte[n](_ => SPACE);
    var i := 0;
    while i < |s|
      invariant 0 <= i <= |s| && i <= n
      invariant forall j :: 0 <= j < n ==> field[j] == if j < i then s[j] else SPACE
    {
      if i == n {
        return field, false;
      }
      field[i] := s[i];
      i := i + 1;
    }
    assert field[..] == Pad(s, n);
    return field, true;
  }

  /** `upper` is the Unicode upper case of the name. */
  method ParseName(name: Bytes, upper: Bytes) returns (r: Parsed)
    ensures r == ParseAs(name, upper)
  {
    if name == [] {
      return Bad(FilenameEmpty);
    }
    var i := 0;
    while i < |name|
      invariant 0 <= i <= |name|
      invariant forall j :: 0 <= j < i ==> !Invalid(name[j])
    {
      if Invalid(name[i]) {
        return Bad(InvalidCharacter);
      }
      i := i + 1;
    }
    var dot := 0;
    while dot < |upper| && upper[dot] != DOT
      invariant 0 <= dot <= |upper|
      invariant forall j :: 0 <= j < dot ==> upper[j] != DOT
    {
      dot := dot + 1;
    }
    DotIs(upper, dot);
    if dot < |upper| {
      if dot > 8 {
        return Bad(NameTooLong);
      }
      var base, ok := FillField(upper[..dot], 8);
      var ext, fits := FillField(upper[dot + 1..], 3);
      if !fits {
        return Panic;
      }
      return Good(ShortName(base[..], ext[..]));
    }
    if |upper| > 8 {
      return Bad(NameTooLong);
    }
    var base, ok := FillField(upper, 8);
    return Good(ShortName(base[..], Spaces(3)));
  }
}
