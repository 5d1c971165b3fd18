/**
 parse_headers in several workers at once. The length of the header name it tries is kept in
 one variable of the program: stored before each comparison, loaded as the length to compare,
 and loaded again to step over the name. A step is one store or one load of one worker.
 */
module HeaderOffset {
  import opened RequestGrammar
  import opened RequestPrinter
  import opened Text
  import opened Runs
  import opened Wrappers

  /** The names in the order in which they are tried. */
  datatype Name = ConnectionName | LengthName | HostName

  function NameText(n: Name): string {
    match n
    case ConnectionName => CONNECTION
    case LengthName => CONTENT_LENGTH
    case HostName => HOST
  }

  function Next(n: Name): Option<Name> {
    match n
    case ConnectionName => Some(LengthName)
    case LengthName => Some(HostName)
    case HostName => None
  }

  function Cut(s: string, n: nat): string { if |s| <= n then s else s[..n] }

  /** strncasecmp(a, b, n) == 0. */
  predicate SameNoCase(a: string, b: string, n: nat) { EqNoCase(Cut(a, n), Cut(b, n)) }

  /**
   Where a worker is with its line. `mark` is the number of stores when it had made its last
   one; `heard` tells whether every load so far found the length it had stored.
   */
  datatype Pc =
    | Away
    | Storing(line: string, name: Name, heard: bool)
    | Comparing(line: string, name: Name, mark: nat, heard: bool)
    | Matched(line: string, name: Name, mark: nat, heard: bool)
    | Valued(line: string, name: Name, offset: nat, heard: bool)   // the value is at line + offset
    | Unknown(line: string, heard: bool)

  datatype Store = Store(w: nat, length: nat)

  /** `stores` is history. */
  datatype State = State(offset: nat, workers: map<nat, Pc>, stores: seq<Store>)

  datatype Label = Begin(w: nat, line: string) | Moves(w: nat)

  function Goto(s: State, w: nat, pc: Pc): State { s.(workers := s.workers[w := pc]) }

  function MoveStep(s: State, w: nat, pc: Pc): Option<State> {
    match pc
    case Storing(line, name, heard) =>
      var n := |NameText(name)|;
      Some(State(n, s.workers[w := Comparing(line, name, |s.stores| + 1, heard)], s.stores + [Store(w, n)]))
    case Comparing(line, name, mark, heard) =>
      var same := heard && s.offset == |NameText(name)|;
      Some(Goto(s, w,
                if SameNoCase(line, NameText(name), s.offset) then Matched(line, name, mark, same)
                else if Next(name).Some? then Storing(line, Next(name).value, same)
                else Unknown(line, same)))
    case Matched(line, name, _, heard) =>
      Some(Goto(s, w, Valued(line, name, s.offset, heard && s.offset == |NameText(name)|)))
    case Valued(_, _, _, _) => Some(Goto(s, w, Away))
    case Unknown(_, _) => Some(Goto(s, w, Away))
    case Away => None
  }

  function Step(s: State, l: Label): Option<State> {
    if l.w !in s.workers then None
    else
      match l
      case Begin(w, line) =>
        if s.workers[w].Away? && line != [] then Some(Goto(s, w, Storing(line, ConnectionName, true))) else None
      case Moves(w) => MoveStep(s, w, s.workers[w])
  }

  function Run(s: State, ls: seq<Label>): Option<State> { RunOf(Step, s, ls) }

  predicate Initial(s: State) {
    s.offset == 0 && s.stores == [] && forall w | w in s.workers :: s.workers[w] == Away
  }

  // ---------- the invariant ----------

  /** Since `mark`, just after its own store of this length, worker `w` has not stored. */
  predicate OwnStore(s: State, w: nat, name: Name, mark: nat) {
    && 0 < mark <= |s.stores| && s.stores[mark - 1] == Store(w, |NameText(name)|)
    && forall k | mark <= k < |s.stores| :: s.stores[k].w != w
  }

  /** No name before `n` begins the line. */
  predicate NoneBefore(line: string, n: Name) {
    && (!n.ConnectionName? ==> !StartsNoCase(line, CONNECTION))
    && (n.HostName? ==> !StartsNoCase(line, CONTENT_LENGTH))
  }

  /** What a worker that has heard nobody else knows of its line. */
  predicate Sound(s: State, w: nat, pc: Pc) {
    match pc
    case Away => true
    case Storing(line, name, heard) => heard ==> NoneBefore(line, name)
    case Comparing(line, name, mark, heard) => OwnStore(s, w, name, mark) && (heard ==> NoneBefore(line, name))
    case Matched(line, name, mark, heard) =>
      OwnStore(s, w, name, mark) && (heard ==> NoneBefore(line, name) && StartsNoCase(line, NameText(name)))
    case Valued(line, name, offset, heard) =>
      heard ==> NoneBefore(line, name) && StartsNoCase(line, NameText(name)) && offset == |NameText(name)|
    case Unknown(line, heard) =>
      heard ==> !StartsNoCase(line, CONNECTION) && !StartsNoCase(line, CONTENT_LENGTH) && !StartsNoCase(line, HOST)
  }

  predicate Inv(s: State) {
    && s.offset == (if s.stores == [] then 0 else s.stores[|s.stores| - 1].length)
    && forall w | w in s.workers :: Sound(s, w, s.workers[w])
  }

  lemma SameIsStarts(line: string, name: string)
    ensures SameNoCase(line, name, |name|) <==> StartsNoCase(line, name)
  {
  }

  /** A store is one more store of somebody else to all others. */
  lemma StoreKeeps(s: State, w: nat)
    requires Inv(s) && w in s.workers && s.workers[w].Storing?
    ensures Inv(MoveStep(s, w, s.workers[w]).value)
  {
    var t := MoveStep(s, w, s.workers[w]).value;
    forall v | v in t.workers ensures Sound(t, v, t.workers[v]) {
      assert v != w ==> t.workers[v] == s.workers[v] && Sound(s, v, s.workers[v]);
    }
  }

  /** A load is nothing to the others. */
  lemma GotoKeeps(s: State, w: nat, pc: Pc)
    requires Inv(s) && w in s.workers && Sound(s, w, pc)
    ensures Inv(Goto(s, w, pc))
  {
    var t := Goto(s, w, pc);
    forall v | v in t.workers ensures Sound(t, v, t.workers[v]) {
      assert v != w ==> t.workers[v] == s.workers[v] && Sound(s, v, s.workers[v]);
    }
  }

  lemma LoadKeeps(s: State, w: nat)
    requires Inv(s) && w in s.workers && !s.workers[w].Storing? && MoveStep(s, w, s.workers[w]).Some?
    ensures Inv(MoveStep(s, w, s.workers[w]).value)
  {
    var pc, t := s.workers[w], MoveStep(s, w, s.workers[w]).value;
    assert Sound(s, w, pc);
    if pc.Comparing? { SameIsStarts(pc.line, NameText(pc.name)); }
    assert t == Goto(s, w, t.workers[w]);
    GotoKeeps(s, w, t.workers[w]);
  }

  lemma StepKeeps(s: State, l: Label)
    requires Inv(s) && Step(s, l).Some?
    ensures Inv(Step(s, l).value)
  {
    if l.Moves? { if s.workers[l.w].Storing? { StoreKeeps(s, l.w); } else { LoadKeeps(s, l.w); } }
  }

  lemma {:induction false} RunKeeps(s: State, ls: seq<Label>)
    requires Inv(s) && Run(s, ls).Some?
    ensures Inv(Run(s, ls).value)
    decreases |ls|
  {
    if ls != [] {
      StepKeeps(s, ls[0]);
      RunKeeps(Step(s, ls[0]).value, ls[1..]);
    }
  }

  // ---------- what it means ----------

  /** Nobody else has stored since `mark`, or the last who did stored this length too. */
  predicate StillThere(s: State, mark: nat, length: nat)
    requires mark <= |s.stores|
  {
    |s.stores| > mark ==> s.stores[|s.stores| - 1].length == length
  }

  /**
   Main result: in every run, a worker that has matched a name steps over exactly that name if
   and only if, since its own store, no other worker has stored, or the last one stored the
   same length.
   */
  lemma ValueRightExactly(s0: State, ls: seq<Label>, w: nat)
    requires Initial(s0) && Run(s0, ls).Some?
    requires w in Run(s0, ls).value.workers && Run(s0, ls).value.workers[w].Matched?
    ensures var s := Run(s0, ls).value;
            var pc := s.workers[w];
            && pc.mark <= |s.stores| && (forall k | pc.mark <= k < |s.stores| :: s.stores[k].w != w)
            && Step(s, Moves(w)).Some? && Step(s, Moves(w)).value.workers[w].Valued?
            && (Step(s, Moves(w)).value.workers[w].offset == |NameText(pc.name)| <==>
                  StillThere(s, pc.mark, |NameText(pc.name)|))
  {
    RunKeeps(s0, ls);
    assert Sound(Run(s0, ls).value, w, Run(s0, ls).value.workers[w]);
  }

  /** The same for the length that a comparison uses. */
  lemma ComparedExactly(s0: State, ls: seq<Label>, w: nat)
    requires Initial(s0) && Run(s0, ls).Some?
    requires w in Run(s0, ls).value.workers && Run(s0, ls).value.workers[w].Comparing?
    ensures var s := Run(s0, ls).value;
            var pc := s.workers[w];
            && pc.mark <= |s.stores|
            && (s.offset == |NameText(pc.name)| <==> StillThere(s, pc.mark, |NameText(pc.name)|))
  {
    RunKeeps(s0, ls);
    assert Sound(Run(s0, ls).value, w, Run(s0, ls).value.workers[w]);
  }

  /** What parse_headers does with the value at `offset`, which is inside the line. */
  function ValueEffect(r: Request, line: string, name: Name, offset: nat): LineEffect
    requires offset <= |line|
  {
    var value := SkipSeps(line[offset..]);
    Continue(match name
             case ConnectionName => if EqNoCase(value, KEEP_ALIVE) then r.(linger := true) else r
             case LengthName => r.(contentLength := ToInt(Atol(value)))
             case HostName => r.(host := Some(value)))
  }

  /** Main result: a worker that heard only itself gives its line the meaning that it has alone. */
  lemma HeardOnlyItself(s0: State, ls: seq<Label>, w: nat, r: Request)
    requires Initial(s0) && Run(s0, ls).Some? && w in Run(s0, ls).value.workers
    ensures match Run(s0, ls).value.workers[w]
            case Valued(line, name, offset, heard) =>
              heard && line != [] ==> offset <= |line| && ValueEffect(r, line, name, offset) == HeaderEffect(r, line)
            case Unknown(line, heard) => heard && line != [] ==> HeaderEffect(r, line) == Continue(r)
            case _ => true
  {
    RunKeeps(s0, ls);
    assert Sound(Run(s0, ls).value, w, Run(s0, ls).value.workers[w]);
  }

  // ---------- two workers ----------

  ghost predicate Reaches(s: State, t: State) { ReachedBy(Step, s, t) }

  /** Two workers, with the variable at `offset`. */
  function Two(offset: nat, a: Pc, b: Pc, stores: seq<Store>): State { State(offset, map[0 := a, 1 := b], stores) }

  lemma StoreFirst(s0: State, offset: nat, line: string, name: Name, b: Pc, stores: seq<Store>, after: seq<Store>)
    requires Reaches(s0, Two(offset, Storing(line, name, true), b, stores)) && after == stores + [Store(0, |NameText(name)|)]
    ensures Reaches(s0, Two(|NameText(name)|, Comparing(line, name, |after|, true), b, after))
  {
    var a, a' := Storing(line, name, true), Comparing(line, name, |after|, true);
    assert map[0 := a, 1 := b][0 := a'] == map[0 := a', 1 := b];
    ReachedOn(Step, s0, Two(offset, a, b, stores), Moves(0), Two(|NameText(name)|, a', b, after));
  }

  lemma CompareFirst(s0: State, line: string, name: Name, mark: nat, b: Pc, stores: seq<Store>)
    requires Reaches(s0, Two(|NameText(name)|, Comparing(line, name, mark, true), b, stores))
    requires !StartsNoCase(line, NameText(name)) ==> Next(name).Some?
    ensures Reaches(s0, Two(|NameText(name)|,
                            if StartsNoCase(line, NameText(name)) then Matched(line, name, mark, true)
                            else Storing(line, Next(name).value, true), b, stores))
  {
    SameIsStarts(line, NameText(name));
    var a := Comparing(line, name, mark, true);
    var a' := if StartsNoCase(line, NameText(name)) then Matched(line, name, mark, true)
              else Storing(line, Next(name).value, true);
    assert map[0 := a, 1 := b][0 := a'] == map[0 := a', 1 := b];
    ReachedOn(Step, s0, Two(|NameText(name)|, a, b, stores), Moves(0), Two(|NameText(name)|, a', b, stores));
  }

  /** A Content-length line. */
  function LengthLine(value: string): string { CONTENT_LENGTH + " " + value }

  lemma LengthLineBegins(value: string)
    ensures !StartsNoCase(LengthLine(value), CONNECTION) && StartsNoCase(LengthLine(value), CONTENT_LENGTH)
  {
    var line := LengthLine(value);
    assert line[..|CONTENT_LENGTH|] == CONTENT_LENGTH;
    NotThatHeader(line, CONTENT_LENGTH, CONNECTION, 3);
  }

  lemma BeginFirst(s0: State, line: string)
    requires s0 == Two(0, Away, Away, []) && line != []
    ensures Reaches(s0, Two(0, Storing(line, ConnectionName, true), Away, []))
  {
    assert Run(s0, []) == Some(s0);
    assert map[0 := Away, 1 := Away][0 := Storing(line, ConnectionName, true)] ==
           map[0 := Storing(line, ConnectionName, true), 1 := Away];
    ReachedOn(Step, s0, s0, Begin(0, line), Two(0, Storing(line, ConnectionName, true), Away, []));
  }

  /** The first worker passes the first name and matches the second. */
  lemma FirstMatches(s0: State, value: string)
    requires s0 == Two(0, Away, Away, [])
    ensures Reaches(s0, Two(15, Matched(LengthLine(value), LengthName, 2, true), Away, [Store(0, 11), Store(0, 15)]))
  {
    var line := LengthLine(value);
    assert |CONNECTION| == 11 && |CONTENT_LENGTH| == 15;
    LengthLineBegins(value);
    BeginFirst(s0, line);
    StoreFirst(s0, 0, line, ConnectionName, Away, [], [Store(0, 11)]);
    CompareFirst(s0, line, ConnectionName, 1, Away, [Store(0, 11)]);
    StoreFirst(s0, 11, line, LengthName, Away, [Store(0, 11)], [Store(0, 11), Store(0, 15)]);
    CompareFirst(s0, line, LengthName, 2, Away, [Store(0, 11), Store(0, 15)]);
  }

  /** The second begins a header line of any kind ... */
  lemma SecondStores(s0: State, offset: nat, a: Pc, other: string, stores: seq<Store>)
    requires other != [] && Reaches(s0, Two(offset, a, Away, stores))
    ensures Reaches(s0, Two(11, a, Comparing(other, ConnectionName, |stores| + 1, true), stores + [Store(1, 11)]))
  {
    var b, b' := Storing(other, ConnectionName, true), Comparing(other, ConnectionName, |stores| + 1, true);
    assert |CONNECTION| == 11;
    assert map[0 := a, 1 := Away][1 := b] == map[0 := a, 1 := b] && map[0 := a, 1 := b][1 := b'] == map[0 := a, 1 := b'];
    ReachedOn(Step, s0, Two(offset, a, Away, stores), Begin(1, other), Two(offset, a, b, stores));
    ReachedOn(Step, s0, Two(offset, a, b, stores), Moves(1), Two(11, a, b', stores + [Store(1, 11)]));
  }

  /** ... and the first steps over the wrong length. */
  lemma FirstLoads(s0: State, line: string, name: Name, mark: nat, b: Pc, stores: seq<Store>)
    requires !name.ConnectionName? && Reaches(s0, Two(11, Matched(line, name, mark, true), b, stores))
    ensures Reaches(s0, Two(11, Valued(line, name, 11, false), b, stores))
  {
    var a, a' := Matched(line, name, mark, true), Valued(line, name, 11, false);
    assert |CONTENT_LENGTH| == 15 && |HOST| == 5;
    assert map[0 := a, 1 := b][0 := a'] == map[0 := a', 1 := b];
    ReachedOn(Step, s0, Two(11, a, b, stores), Moves(0), Two(11, a', b, stores));
  }

  lemma NoNumber(v: string)
    requires v != [] && v[0] == 'g'
    ensures Atol(SkipSeps(v)) == 0
  {
    assert SkipSeps(v) == v && SkipSpace(v) == v && Digits(v) == [];
  }

  /** At offset 11 the name is not over, and no number begins there. */
  lemma NoNumberThere(value: string)
    ensures Atol(SkipSeps(LengthLine(value)[11..])) == 0
  {
    var v := LengthLine(value)[11..];
    assert v[0] == CONTENT_LENGTH[11];
    NoNumber(v);
  }

  lemma LengthLineMeans(r: Request, n: nat)
    requires n <= INT_MAX
    ensures HeaderEffect(r, LengthLine(Decimal(n))) == Continue(r.(contentLength := n))
  {
    DecimalPrintable(n);
    LengthEffect(r, CONTENT_LENGTH, " ", Decimal(n));
    assert Decimal(n) + "" == Decimal(n);
    AtolOfDecimal(n, "");
    ToIntOfInt(n);
  }

  /**
   A concrete run in which any announced length becomes none: between one worker's match of
   its Content-length line and its load, another worker begins a header line of any kind.
   */
  lemma LengthIsLost(r: Request, n: nat, other: string)
    requires other != [] && n <= INT_MAX
    ensures var s0, line := Two(0, Away, Away, []), LengthLine(Decimal(n));
            && Initial(s0)
            && (exists s :: Reaches(s0, s) && 0 in s.workers && s.workers[0] == Valued(line, LengthName, 11, false))
            && ValueEffect(r, line, LengthName, 11) == Continue(r.(contentLength := 0))
            && HeaderEffect(r, line) == Continue(r.(contentLength := n))
  {
    var s0, line := Two(0, Away, Away, []), LengthLine(Decimal(n));
    FirstMatches(s0, Decimal(n));
    SecondStores(s0, 15, Matched(line, LengthName, 2, true), other, [Store(0, 11), Store(0, 15)]);
    FirstLoads(s0, line, LengthName, 2, Comparing(other, ConnectionName, 3, true),
               [Store(0, 11), Store(0, 15)] + [Store(1, 11)]);
    NoNumberThere(Decimal(n));
    LengthLineMeans(r, n);
  }

  lemma HostLineBegins(value: string)
    ensures var line := HOST + " " + value;
            !StartsNoCase(line, CONNECTION) && !StartsNoCase(line, CONTENT_LENGTH) && StartsNoCase(line, HOST)
  {
    var line := HOST + " " + value;
    assert line[..|HOST|] == HOST;
    NotThatHeader(line, HOST, CONNECTION, 0);
    NotThatHeader(line, HOST, CONTENT_LENGTH, 0);
  }

  /** The first worker passes two names and matches the third. */
  lemma FirstMatchesHost(s0: State, line: string, value: string)
    requires s0 == Two(0, Away, Away, []) && line == HOST + " " + value
    ensures Reaches(s0, Two(5, Matched(line, HostName, 3, true), Away, [Store(0, 11), Store(0, 15), Store(0, 5)]))
  {
    assert |CONNECTION| == 11 && |CONTENT_LENGTH| == 15 && |HOST| == 5;
    HostLineBegins(value);
    BeginFirst(s0, line);
    StoreFirst(s0, 0, line, ConnectionName, Away, [], [Store(0, 11)]);
    CompareFirst(s0, line, ConnectionName, 1, Away, [Store(0, 11)]);
    StoreFirst(s0, 11, line, LengthName, Away, [Store(0, 11)], [Store(0, 11), Store(0, 15)]);
    CompareFirst(s0, line, LengthName, 2, Away, [Store(0, 11), Store(0, 15)]);
    StoreFirst(s0, 15, line, HostName, Away, [Store(0, 11), Store(0, 15)], [Store(0, 11), Store(0, 15), Store(0, 5)]);
    CompareFirst(s0, line, HostName, 3, Away, [Store(0, 11), Store(0, 15), Store(0, 5)]);
  }

  /** The same run on a short Host line: its value comes to lie behind its end. */
  lemma HostBehindItsLine(value: string, other: string)
    requires other != [] && |value| < 5
    ensures var s0, line := Two(0, Away, Away, []), HOST + " " + value;
            && Initial(s0) && |line| < 11
            && exists s :: Reaches(s0, s) && 0 in s.workers && s.workers[0] == Valued(line, HostName, 11, false)
  {
    var s0, line := Two(0, Away, Away, []), HOST + " " + value;
    var stores := [Store(0, 11), Store(0, 15), Store(0, 5)];
    assert |HOST| == 5;
    FirstMatchesHost(s0, line, value);
    SecondStores(s0, 5, Matched(line, HostName, 3, true), other, stores);
    FirstLoads(s0, line, HostName, 3, Comparing(other, ConnectionName, 4, true), stores + [Store(1, 11)]);
  }
}
