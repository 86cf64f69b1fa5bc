/**
 Replacing a file: write a temporary file beside the target, rename it over the target,
 and remove the temporary name on the way out. Every operation may fail, and every state the
 directory would be left in if the process died there is part of the run.
 */
module AtomicFile {
  import opened Basics
  import opened Numerals

  datatype File = File(content: string, mode: int)

  /** The files of the target's directory, by name. */
  type Dir = map<string, File>

  const TEMP_MODE := 0x180  // owner may read and write
  const DEFAULT_MODE := 0x180

  datatype Fault =
    | BadMode(text: string) | BadConfig | NoParent | NoTemp | NoWrite | NoChmod | NoClose | NoRename

  type Random = n: nat | n < 0x1_0000_0000

  /** The outcomes of the operations: which succeed, the random part of the name, the sizes of partial writes. */
  datatype Luck = Luck(
    mkdir: bool, create: bool, random: Random, partial: seq<nat>, write: bool,
    chmod: bool, close: bool, rename: bool, remove: bool)

  /** The states the directory enters one after the other, and how the run returned. */
  datatype Run = Run(trail: seq<Dir>, error: Option<Fault>)

  /** The state at the end of a trail that began at d. */
  function After(d: Dir, trail: seq<Dir>): Dir {
    if trail == [] then d else trail[|trail| - 1]
  }

  // ----- the protocol as a function of its luck

  function TempName(prefix: string, suffix: string, random: Random): string {
    prefix + Decimal(random) + suffix
  }

  function Front(content: string, n: nat): string {
    if n <= |content| then content[..n] else content
  }

  /** The states while the content arrives in the temporary file piece by piece. */
  function Partials(d: Dir, tmp: string, content: string, sizes: seq<nat>): seq<Dir> {
    if sizes == [] then [] else
      Partials(d, tmp, content, sizes[..|sizes| - 1]) +
      [d[tmp := File(Front(content, sizes[|sizes| - 1]), TEMP_MODE)]]
  }

  function Renamed(d: Dir, from: string, to: string): Dir
    requires from in d
  {
    (d - {from})[to := d[from]]
  }

  function Removed(d: Dir, tmp: string, works: bool): Dir {
    if works then d - {tmp} else d
  }

  /** Leaving the function: the deferred removal acts on the last state. */
  function Leave(d: Dir, trail: seq<Dir>, tmp: string, works: bool, error: Option<Fault>): Run {
    Run(trail + [Removed(After(d, trail), tmp, works)], error)
  }

  /** Filling the temporary file: write, set the mode, close. */
  function Fill(d: Dir, tmp: string, content: string, mode: int, luck: Luck): Run {
    var started := [d[tmp := File("", TEMP_MODE)]] + Partials(d, tmp, content, luck.partial);
    if !luck.write then Run(started, Some(NoWrite)) else
    var written := started + [d[tmp := File(content, TEMP_MODE)]];
    if !luck.chmod then Run(written, Some(NoChmod)) else
    Run(written + [d[tmp := File(content, mode)]], if luck.close then None else Some(NoClose))
  }

  function Replace(d: Dir, target: string, prefix: string, suffix: string, content: string, mode: int, luck: Luck): Run {
    var tmp := TempName(prefix, suffix, luck.random);
    if !luck.mkdir then Run([], Some(NoParent))
    else if !luck.create || tmp in d then Run([], Some(NoTemp))
    else
      var filled := Fill(d, tmp, content, mode, luck);
      if filled.error.Some? then Leave(d, filled.trail, tmp, luck.remove, filled.error)
      else if !luck.rename then Leave(d, filled.trail, tmp, luck.remove, Some(NoRename))
      else Leave(d, filled.trail + [Renamed(d[tmp := File(content, mode)], tmp, target)], tmp, luck.remove, None)
  }

  // ----- octal modes

  /** Octal digits of a number below 2^32. */
  function ParseMode(text: string): Option<nat> {
    if text == "" then None else
      var c := text[|text| - 1];
      if !('0' <= c <= '7') then None else
      var digit := c as int - '0' as int;
      if |text| == 1 then Some(digit) else
        match ParseMode(text[..|text| - 1])
        case None => None
        case Some(n) => if n * 8 + digit < 0x1_0000_0000 then Some(n * 8 + digit) else None
  }

  function WriteFile(d: Dir, base: string, modeText: string, content: string, luck: Luck): Run {
    var mode := if modeText == "" then Some(DEFAULT_MODE) else ParseMode(modeText);
    match mode
    case None => Run([], Some(BadMode(modeText)))
    case Some(m) => Replace(d, base, "." + base + ".", ".tmp", content, m, luck)
  }

  const SAVE_PREFIX := ".router-"
  const SAVE_SUFFIX := ".json"

  /** Saving an encoded configuration; one that fails validation or encoding touches nothing. */
  function Save(d: Dir, base: string, encoded: Option<string>, luck: Luck): Run {
    match encoded
    case None => Run([], Some(BadConfig))
    case Some(data) => Replace(d, base, SAVE_PREFIX, SAVE_SUFFIX, data + "\n", TEMP_MODE, luck)
  }

  // ----- the code

  class Disk {
    var dir: Dir
    ghost var seen: seq<Dir>

    constructor (d: Dir)
      ensures dir == d && seen == [d]
    {
      dir, seen := d, [d];
    }

    method Become(d: Dir)
      modifies this
      ensures dir == d && seen == old(seen) + [d]
    {
      dir := d;
      seen := seen + [d];
    }

    method Remove(name: string, works: bool)
      modifies this
      ensures dir == Removed(old(dir), name, works) && seen == old(seen) + [dir]
    {
      if works {
        Become(dir - {name});
      } else {
        Become(dir);
      }
    }

    /** Writes the content in pieces of the given cumulative sizes. */
    method WritePieces(tmp: string, content: string, sizes: seq<nat>, ghost before: Dir)
      requires tmp in dir && dir == before[tmp := dir[tmp]] && dir[tmp].mode == TEMP_MODE
      modifies this
      ensures tmp in dir && dir == before[tmp := dir[tmp]] && dir[tmp].mode == TEMP_MODE
      ensures seen == old(seen) + Partials(before, tmp, content, sizes)
      ensures dir == After(old(dir), Partials(before, tmp, content, sizes))
    {
      for i := 0 to |sizes|
        invariant tmp in dir && dir == before[tmp := dir[tmp]] && dir[tmp].mode == TEMP_MODE
        invariant seen == old(seen) + Partials(before, tmp, content, sizes[..i])
        invariant dir == After(old(dir), Partials(before, tmp, content, sizes[..i]))
      {
        assert sizes[..i + 1][..i] == sizes[..i];
        Become(dir[tmp := dir[tmp].(content := Front(content, sizes[i]))]);
      }
      assert sizes[..|sizes|] == sizes;
    }

    method FillTemp(tmp: string, content: string, mode: int, luck: Luck) returns (error: Option<Fault>)
      modifies this
      ensures var r := Fill(old(dir), tmp, content, mode, luck);
              error == r.error && dir == After(old(dir), r.trail) && seen == old(seen) + r.trail
      ensures error == None ==> dir == old(dir)[tmp := File(content, mode)]
    {
      hide Partials;
      ghost var before := dir;
      Become(dir[tmp := File("", TEMP_MODE)]);
      WritePieces(tmp, content, luck.partial, before);
      ghost var trail := [before[tmp := File("", TEMP_MODE)]] + Partials(before, tmp, content, luck.partial);
      assert seen == old(seen) + trail;
      if !luck.write {
        return Some(NoWrite);
      }
      Become(dir[tmp := File(content, TEMP_MODE)]);
      assert dir == before[tmp := File(content, TEMP_MODE)];
      trail := trail + [dir];
      assert seen == old(seen) + trail;
      if !luck.chmod {
        return Some(NoChmod);
      }
      Become(dir[tmp := dir[tmp].(mode := mode)]);
      assert dir == before[tmp := File(content, mode)];
      trail := trail + [dir];
      assert seen == old(seen) + trail;
      return if luck.close then None else Some(NoClose);
    }

    method ReplaceFile(target: string, prefix: string, suffix: string, content: string, mode: int, luck: Luck)
      returns (error: Option<Fault>)
      modifies this
      ensures var r := Replace(old(dir), target, prefix, suffix, content, mode, luck);
              error == r.error && dir == After(old(dir), r.trail) && seen == old(seen) + r.trail
    {
      hide Fill;
      hide TempName;
      if !luck.mkdir {
        return Some(NoParent);
      }
      var tmp := TempName(prefix, suffix, luck.random);
      if !luck.create || tmp in dir {
        return Some(NoTemp);
      }
      error := FillTemp(tmp, content, mode, luck);
      ghost var trail := Fill(old(dir), tmp, content, mode, luck).trail;
      if error == None {
        if luck.rename {
          Become(Renamed(dir, tmp, target));
          trail := trail + [dir];
          assert seen == old(seen) + trail;
        } else {
          error := Some(NoRename);
        }
      }
      Remove(tmp, luck.remove);
      assert seen == old(seen) + Leave(old(dir), trail, tmp, luck.remove, error).trail;
    }

    method Write(base: string, modeText: string, content: string, luck: Luck) returns (error: Option<Fault>)
      modifies this
      ensures var r := WriteFile(old(dir), base, modeText, content, luck);
              error == r.error && dir == After(old(dir), r.trail) && seen == old(seen) + r.trail
    {
      hide Replace;
      var mode := DEFAULT_MODE;
      if modeText != "" {
        var parsed := ParseMode(modeText);
        if parsed == None {
          return Some(BadMode(modeText));
        }
        mode := parsed.value;
      }
      error := ReplaceFile(base, "." + base + ".", ".tmp", content, mode, luck);
    }

    method SaveConfig(base: string, encoded: Option<string>, luck: Luck) returns (error: Option<Fault>)
      modifies this
      ensures var r := Save(old(dir), base, encoded, luck);
              error == r.error && dir == After(old(dir), r.trail) && seen == old(seen) + r.trail
    {
      hide Replace;
      if encoded == None {
        return Some(BadConfig);
      }
      error := ReplaceFile(base, SAVE_PREFIX, SAVE_SUFFIX, encoded.value + "\n", TEMP_MODE, luck);
    }
  }

  // ----- what every run guarantees

  /** The target is untouched in this state. */
  predicate Old(s: Dir, d: Dir, target: string) {
    (target in s <==> target in d) && (target in d ==> s[target] == d[target])
  }

  /** The target holds the complete new file. */
  predicate New(s: Dir, target: string, f: File) {
    target in s && s[target] == f
  }

  /** Nothing but the target and the temporary file differs. */
  predicate OthersKept(s: Dir, d: Dir, target: string, tmp: string) {
    s - {target, tmp} == d - {target, tmp}
  }

  predicate Intact(s: Dir, d: Dir, target: string, tmp: string, f: File) {
    (Old(s, d, target) || New(s, target, f)) && OthersKept(s, d, target, tmp)
  }

  /** Every state of the run is old or new, and the return value says which one the final state is. */
  predicate AllOrNothing(d: Dir, target: string, tmp: string, f: File, luck: Luck, r: Run) {
    && (forall s | s in r.trail :: Intact(s, d, target, tmp, f))
    && (luck.remove ==> After(d, r.trail) == if r.error == None then d[target := f] else d)
    && (r.error == None ==> New(After(d, r.trail), target, f))
    && (r.error != None ==> Old(After(d, r.trail), d, target))
  }

  lemma {:induction false} PartialsAreIntact(d: Dir, target: string, tmp: string, content: string, sizes: seq<nat>, f: File)
    requires tmp != target
    ensures forall s | s in Partials(d, tmp, content, sizes) :: Intact(s, d, target, tmp, f)
  {
    if sizes != [] {
      PartialsAreIntact(d, target, tmp, content, sizes[..|sizes| - 1], f);
    }
  }

  /** Filling only touches the temporary file. */
  lemma FillIsIntact(d: Dir, target: string, tmp: string, content: string, mode: int, luck: Luck) returns (g: File)
    requires tmp != target
    ensures var r := Fill(d, tmp, content, mode, luck);
            && (forall s | s in r.trail :: Intact(s, d, target, tmp, File(content, mode)))
            && After(d, r.trail) == d[tmp := g]
  {
    PartialsAreIntact(d, target, tmp, content, luck.partial, File(content, mode));
    g := if !luck.write then
           File(if luck.partial == [] then "" else Front(content, luck.partial[|luck.partial| - 1]), TEMP_MODE)
         else File(content, if luck.chmod then mode else TEMP_MODE);
  }

  lemma LeavingEarly(
    d: Dir, target: string, tmp: string, f: File, luck: Luck, trail: seq<Dir>, g: File, error: Option<Fault>)
    requires tmp != target && tmp !in d && error != None
    requires forall s | s in trail :: Intact(s, d, target, tmp, f)
    requires After(d, trail) == d[tmp := g]
    ensures AllOrNothing(d, target, tmp, f, luck, Leave(d, trail, tmp, luck.remove, error))
  {
    assert d[tmp := g] - {tmp} == d;
  }

  /** Whenever the temporary name differs from the target, a run is all or nothing. */
  lemma {:induction false} DistinctNamesAreAtomic(
    d: Dir, target: string, prefix: string, suffix: string, content: string, mode: int, luck: Luck)
    requires TempName(prefix, suffix, luck.random) != target
    ensures AllOrNothing(d, target, TempName(prefix, suffix, luck.random), File(content, mode), luck,
                         Replace(d, target, prefix, suffix, content, mode, luck))
  {
    hide TempName;
    hide Fill;
    var tmp, f := TempName(prefix, suffix, luck.random), File(content, mode);
    if luck.mkdir && luck.create && tmp !in d {
      var g := FillIsIntact(d, target, tmp, content, mode, luck);
      var filled := Fill(d, tmp, content, mode, luck);
      if filled.error.Some? {
        LeavingEarly(d, target, tmp, f, luck, filled.trail, g, filled.error);
      } else if !luck.rename {
        LeavingEarly(d, target, tmp, f, luck, filled.trail, g, Some(NoRename));
      } else {
        var last := Renamed(d[tmp := f], tmp, target);
        assert last == d[target := f];
        assert last - {tmp} == last;
      }
    }
  }

  lemma DecimalNonEmpty(n: nat)
    ensures |Decimal(n)| >= 1
  {
    DecimalRoundTrip(n);
  }

  /** `writeFile` is all or nothing in every run: its temporary name is longer than the target's. */
  lemma {:induction false} WriteFileIsAtomic(d: Dir, base: string, modeText: string, content: string, luck: Luck)
    ensures var r := WriteFile(d, base, modeText, content, luck);
            var mode := if modeText == "" then Some(DEFAULT_MODE) else ParseMode(modeText);
            var tmp := TempName("." + base + ".", ".tmp", luck.random);
            && |tmp| > |base|
            && match mode
               case None => r == Run([], Some(BadMode(modeText)))
               case Some(m) => AllOrNothing(d, base, tmp, File(content, m), luck, r)
  {
    DecimalNonEmpty(luck.random);
    var mode := if modeText == "" then Some(DEFAULT_MODE) else ParseMode(modeText);
    assert |TempName("." + base + ".", ".tmp", luck.random)| > |base|;
    if mode.Some? {
      DistinctNamesAreAtomic(d, base, "." + base + ".", ".tmp", content, mode.value, luck);
    }
  }

  // ----- what a mode text means

  function Pow8(n: nat): nat {
    if n == 0 then 1 else 8 * Pow8(n - 1)
  }

  predicate OctalDigits(text: string) {
    forall i :: 0 <= i < |text| ==> '0' <= text[i] <= '7'
  }

  predicate IsOctal(text: string) {
    text != "" && OctalDigits(text)
  }

  function OctalDigit(c: char): nat
    requires '0' <= c <= '7'
  {
    c as int - '0' as int
  }

  /** The positional value of octal digits, most significant first. */
  function PlaceValue(text: string): nat
    requires OctalDigits(text)
  {
    if text == "" then 0 else OctalDigit(text[0]) * Pow8(|text| - 1) + PlaceValue(text[1..])
  }

  lemma EightTimes(d: nat, p: nat)
    ensures d * (8 * p) == 8 * (d * p)
  {
  }

  lemma PlaceValueCons(text: string)
    requires text != "" && OctalDigits(text)
    ensures PlaceValue(text) == OctalDigit(text[0]) * Pow8(|text| - 1) + PlaceValue(text[1..])
  {
  }

  lemma {:induction false} PlaceValueSnoc(init: string, c: char)
    requires OctalDigits(init) && '0' <= c <= '7'
    ensures OctalDigits(init + [c])
    ensures PlaceValue(init + [c]) == PlaceValue(init) * 8 + OctalDigit(c)
  {
    var text := init + [c];
    if init == "" {
      assert text[1..] == "" && Pow8(0) == 1;
    } else {
      var d, p := OctalDigit(init[0]), Pow8(|init| - 1);
      assert text[1..] == init[1..] + [c] && text[0] == init[0];
      PlaceValueSnoc(init[1..], c);
      PlaceValueCons(init);
      PlaceValueCons(text);
      assert Pow8(|text| - 1) == 8 * p;
      EightTimes(d, p);
      hide PlaceValue;
      hide Pow8;
      hide OctalDigit;
    }
  }

  /** A mode text stands for its positional value in base eight, as long as that fits 32 bits; every other text is refused. */
  lemma {:induction false} ModeIsPlaceValue(text: string)
    ensures ParseMode(text) == if IsOctal(text) && PlaceValue(text) < 0x1_0000_0000 then Some(PlaceValue(text)) else None
  {
    if text != "" {
      var init, c := text[..|text| - 1], text[|text| - 1];
      assert text == init + [c];
      if '0' <= c <= '7' {
        ModeIsPlaceValue(init);
        if OctalDigits(init) {
          PlaceValueSnoc(init, c);
          assert init == "" ==> PlaceValue(init) == 0;
        } else {
          var i :| 0 <= i < |init| && !('0' <= init[i] <= '7');
          assert text[i] == init[i];
        }
      } else {
        assert text[|init|] == c;
      }
    }
  }

  /** Without a mode text, and while it is written, a file is for its owner to read and write: mode 0600. */
  lemma {:induction false} OwnerOnly()
    ensures ParseMode("0600") == Some(DEFAULT_MODE) && DEFAULT_MODE == TEMP_MODE
  {
    assert "0600"[..3] == "060" && "060"[..2] == "06" && "06"[..1] == "0";
    assert ParseMode("0") == Some(0) && ParseMode("06") == Some(6) && ParseMode("060") == Some(48);
  }

  // ----- saving the configuration

  function SaveTemp(luck: Luck): string {
    TempName(SAVE_PREFIX, SAVE_SUFFIX, luck.random)
  }

  /** The target has the form of a temporary name and does not exist yet. */
  predicate Confusable(d: Dir, base: string) {
    base !in d && exists n: Random :: base == ".router-" + Decimal(n) + ".json"
  }

  const ALL_GOES_WELL := Luck(true, true, 0, [], true, true, true, true, true)

  /** With the two names equal, a run without any fault reports success and leaves no file. */
  lemma SaveCanDeleteItsTarget(d: Dir, data: string, luck: Luck)
    requires SaveTemp(luck) !in d && luck == ALL_GOES_WELL.(random := luck.random)
    ensures var r := Save(d, SaveTemp(luck), Some(data), luck);
            r.error == None && SaveTemp(luck) !in After(d, r.trail)
  {
    hide TempName;
  }

  lemma SaveNames(n: Random)
    ensures TempName(SAVE_PREFIX, SAVE_SUFFIX, n) == ".router-" + Decimal(n) + ".json"
  {
  }

  /** An existing target keeps its name from being chosen for the temporary file. */
  lemma ExistingTargetIsSafe(d: Dir, base: string, data: string, luck: Luck)
    requires base in d && SaveTemp(luck) == base
    ensures Save(d, base, Some(data), luck).trail == [] && Save(d, base, Some(data), luck).error != None
  {
    hide TempName;
  }

  /** Saving is all or nothing in every run if and only if the target cannot be taken for a temporary name. */
  lemma {:induction false} SaveIsAtomicIff(d: Dir, base: string, data: string)
    ensures (forall luck: Luck ::
               AllOrNothing(d, base, SaveTemp(luck), File(data + "\n", TEMP_MODE), luck, Save(d, base, Some(data), luck)))
            <==> !Confusable(d, base)
  {
    hide TempName;
    hide Replace;
    var f := File(data + "\n", TEMP_MODE);
    if Confusable(d, base) {
      var n: Random :| base == ".router-" + Decimal(n) + ".json";
      SaveNames(n);
      var luck := ALL_GOES_WELL.(random := n);
      SaveCanDeleteItsTarget(d, data, luck);
      assert !AllOrNothing(d, base, SaveTemp(luck), f, luck, Save(d, base, Some(data), luck));
    } else {
      forall luck: Luck ensures AllOrNothing(d, base, SaveTemp(luck), f, luck, Save(d, base, Some(data), luck)) {
        if SaveTemp(luck) != base {
          DistinctNamesAreAtomic(d, base, SAVE_PREFIX, SAVE_SUFFIX, data + "\n", TEMP_MODE, luck);
        } else {
          SaveNames(luck.random);
          ExistingTargetIsSafe(d, base, data, luck);
        }
      }
    }
  }
}
