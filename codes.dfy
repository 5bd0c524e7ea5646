/** Candidate barcodes: the random generator, the allocation policy the unique-code
    loop implements, and the output file name the encoder is handed. */
module Codes {
  import opened ProductStore

  /** The generator's character table: ten digits, then the capital letters. */
  const Alphabet: string := "0123456789ABCDEFGHIJKLMNOPQRSTUVWXYZ"

  /** The length every allocated barcode has. */
  const DefaultLength: nat := 12

  /** The allocator's attempt budget. */
  const MaxAttempts: nat := 100

  const OutputDir: string := "test_barcodes/"
  const OutputSuffix: string := "_barcode.png"

  /** The size of the encoder's output file-name buffer, terminating NUL included. */
  const OutfileCapacity: nat := 256

  /** A value the uniform distribution over `0 .. sizeof(alphanum) - 2` can yield. */
  predicate ValidDraw(d: int) {
    0 <= d < |Alphabet|
  }

  predicate ValidDraws(draws: seq<int>) {
    forall i :: 0 <= i < |draws| ==> ValidDraw(draws[i])
  }

  /** The character an alphabet index stands for, computed from character codes. */
  function Symbol(d: int): char
    requires ValidDraw(d)
  {
    if d < 10 then ('0' as int + d) as char else ('A' as int + d - 10) as char
  }

  /** The alphabet index of a character: the inverse of `Symbol`. */
  function DrawOf(c: char): int {
    if '0' <= c <= '9' then c as int - '0' as int else c as int - 'A' as int + 10
  }

  /** The character table is the digits followed by the letters, in order. */
  lemma AlphabetIsSymbols(d: int)
    requires ValidDraw(d)
    ensures Alphabet[d] == Symbol(d)
  {
    var digits := "0123456789";
    var letters := "ABCDEFGHIJKLMNOPQRSTUVWXYZ";
    assert Alphabet == digits + letters;
    if d < 10 {
      assert Alphabet[d] == digits[d];
    } else {
      assert Alphabet[d] == letters[d - 10];
    }
  }

  /** The characters a sequence of draws spells, one per draw. */
  function Spell(draws: seq<int>): (code: string)
    requires ValidDraws(draws)
    ensures |code| == |draws|
  {
    seq(|draws|, i requires 0 <= i < |draws| => Alphabet[draws[i]])
  }

  /** Reading each character of a spelled code back gives the draws: no two draw
      sequences spell the same code. */
  lemma {:induction false} SpellRoundTrip(draws: seq<int>)
    requires ValidDraws(draws)
    ensures forall i :: 0 <= i < |draws| ==> DrawOf(Spell(draws)[i]) == draws[i]
  {
    forall i | 0 <= i < |draws| ensures DrawOf(Spell(draws)[i]) == draws[i] {
      AlphabetIsSymbols(draws[i]);
    }
  }

  lemma SpellInjective(a: seq<int>, b: seq<int>)
    requires ValidDraws(a) && ValidDraws(b)
    requires Spell(a) == Spell(b)
    ensures a == b
  {
    SpellRoundTrip(a);
    SpellRoundTrip(b);
  }

  /** `generate_random_barcode(length)`: `length` characters, one per draw. */
  method GenerateRandomBarcode(length: int, draws: seq<int>) returns (result: string)
    requires |draws| >= length
    requires ValidDraws(draws)
    ensures |result| == if length < 0 then 0 else length
    ensures forall i :: 0 <= i < |result| ==> result[i] in Alphabet
    ensures result == Spell(draws[..|result|])
  {
    result := "";
    var i := 0;
    while i < length
      invariant 0 <= i <= if length < 0 then 0 else length
      invariant result == Spell(draws[..i])
    {
      result := result + [Alphabet[draws[i]]];
      i := i + 1;
    }
  }

  /** The candidate one call of the generator with the default length yields. */
  function Candidate(draws: seq<int>): (code: string)
    requires |draws| >= DefaultLength && ValidDraws(draws)
    ensures |code| == DefaultLength
  {
    Spell(draws[..DefaultLength])
  }

  /** Enough draws for every attempt of one allocation. */
  predicate ValidAttemptDraws(draws: seq<seq<int>>) {
    |draws| >= MaxAttempts
    && forall k :: 0 <= k < |draws| ==> |draws[k]| >= DefaultLength && ValidDraws(draws[k])
  }

  /** The candidates of the allocator's attempts, in order. */
  function Candidates(draws: seq<seq<int>>): seq<string>
    requires ValidAttemptDraws(draws)
  {
    seq(MaxAttempts, k requires 0 <= k < MaxAttempts => Candidate(draws[k]))
  }

  /** The first candidate the store does not hold. */
  function FirstAbsent(codes: seq<string>, rows: seq<Row>): (r: Option<nat>)
    ensures r.Some? ==> r.value < |codes| && !HasBarcode(rows, codes[r.value])
    ensures r.Some? ==> forall j :: 0 <= j < r.value ==> HasBarcode(rows, codes[j])
    ensures r.None? <==> forall j :: 0 <= j < |codes| ==> HasBarcode(rows, codes[j])
  {
    if codes == [] then None
    else if !HasBarcode(rows, codes[0]) then Some(0)
    else match FirstAbsent(codes[1..], rows)
      case None => None
      case Some(k) => Some(k + 1)
  }

  /** The `k`-th attempt's call `generate_random_barcode(12)`. */
  method DrawCandidate(draws: seq<seq<int>>, k: nat) returns (code: string)
    requires ValidAttemptDraws(draws) && k < MaxAttempts
    ensures code == Candidates(draws)[k]
  {
    code := GenerateRandomBarcode(DefaultLength, draws[k]);
  }

  /** The first absent candidate is the one after a run of present ones. */
  lemma FirstAbsentAt(codes: seq<string>, rows: seq<Row>, k: nat)
    requires k < |codes| && !HasBarcode(rows, codes[k])
    requires forall j :: 0 <= j < k ==> HasBarcode(rows, codes[j])
    ensures FirstAbsent(codes, rows) == Some(k)
  {
  }

  /** Where the attempt loop stands: whether the last check found its candidate absent,
      the candidates drawn so far, and those checked against the store, in order. */
  datatype Search = Search(found: bool, drawn: set<string>, queried: seq<string>)

  /** One attempt with candidate `c` against a store holding `rows`: a candidate drawn
      before is not checked again. */
  function Attempt(st: Search, c: string, rows: seq<Row>): Search {
    if c in st.drawn then st else Search(!HasBarcode(rows, c), st.drawn + {c}, st.queried + [c])
  }

  /** The loop's state after its first `k` attempts; a candidate found absent ends it. */
  function Run(codes: seq<string>, rows: seq<Row>, k: nat): Search
    requires k <= |codes|
  {
    if k == 0 then Search(false, {}, [])
    else
      var before := Run(codes, rows, k - 1);
      if before.found then before else Attempt(before, codes[k - 1], rows)
  }

  /** What the attempts so far have established: each candidate is checked at most once,
      in the order drawn; while none was found absent, every candidate drawn is held by
      the store; once one is, it is the last candidate checked. */
  lemma {:induction false} RunFacts(codes: seq<string>, rows: seq<Row>, k: nat)
    requires k <= |codes|
    ensures var st := Run(codes, rows, k);
      && |st.queried| <= k
      && (forall i, j :: 0 <= i < j < |st.queried| ==> st.queried[i] != st.queried[j])
      && (forall c :: c in st.drawn <==> c in st.queried)
      && (!st.found ==> forall c :: c in st.drawn ==> HasBarcode(rows, c))
      && (!st.found ==> forall j :: 0 <= j < k ==> codes[j] in st.drawn)
      && (st.found ==> st.queried != [] && !HasBarcode(rows, st.queried[|st.queried| - 1]))
  {
    if k > 0 {
      var before := Run(codes, rows, k - 1);
      RunFacts(codes, rows, k - 1);
      var c := codes[k - 1];
      if !before.found && c !in before.drawn {
        var st := Run(codes, rows, k);
        assert st.queried == before.queried + [c];
        forall i, j | 0 <= i < j < |st.queried|
          ensures st.queried[i] != st.queried[j]
        {
          if j == |before.queried| {
            assert st.queried[i] == before.queried[i];
          }
        }
      }
    }
  }

  /** The attempt that first finds a candidate absent checks that candidate, and every
      earlier candidate is held by the store. */
  lemma RunFound(codes: seq<string>, rows: seq<Row>, k: nat)
    requires 0 < k <= |codes| && !Run(codes, rows, k - 1).found && Run(codes, rows, k).found
    ensures var st := Run(codes, rows, k);
      && st.queried != [] && st.queried[|st.queried| - 1] == codes[k - 1]
      && !HasBarcode(rows, codes[k - 1])
      && forall j :: 0 <= j < k - 1 ==> HasBarcode(rows, codes[j])
  {
    RunFacts(codes, rows, k - 1);
  }

  /** Whether `SELECT COUNT(*) FROM products WHERE barcode = ?` can run. */
  predicate Queryable(products: Option<Table>) {
    products.Some? && Resolves(products.value.columns, "barcode")
  }

  function QueryError(products: Option<Table>): Error {
    if products.None? then NoSuchTable else NoSuchColumn
  }

  /** What the unique-code allocator yields on a settled store: the first candidate the
      store does not hold, or exhaustion when it holds all of them; a store that cannot
      be queried fails the first check. */
  function Allocation(codes: seq<string>, products: Option<Table>): (r: Result<string>)
    requires codes != []
    ensures r.Ok? ==> Queryable(products) && r.value in codes && !HasBarcode(products.value.rows, r.value)
    ensures r == Err(ExhaustedRetries)
        <==> Queryable(products) && forall j :: 0 <= j < |codes| ==> HasBarcode(products.value.rows, codes[j])
  {
    if !Queryable(products) then Err(QueryError(products))
    else match FirstAbsent(codes, products.value.rows)
      case Some(k) => Ok(codes[k])
      case None => Err(ExhaustedRetries)
  }

  /** The allocator's answer is the candidate after a run of held ones. */
  lemma AllocationFound(codes: seq<string>, products: Option<Table>, k: nat)
    requires Queryable(products) && k < |codes|
    requires !HasBarcode(products.value.rows, codes[k])
    requires forall j :: 0 <= j < k ==> HasBarcode(products.value.rows, codes[j])
    ensures Allocation(codes, products) == Ok(codes[k])
  {
    FirstAbsentAt(codes, products.value.rows, k);
  }

  /** Where the attempt loop stops on a store it can query, it has computed the
      allocation policy: the candidate the stopping attempt found absent, or exhaustion
      after the last attempt; no candidate was checked twice. */
  lemma RunAllocation(codes: seq<string>, products: Option<Table>, k: nat)
    requires Queryable(products) && 0 < k <= |codes|
    requires if Run(codes, products.value.rows, k).found then !Run(codes, products.value.rows, k - 1).found
             else k == |codes|
    ensures var st := Run(codes, products.value.rows, k);
      && |st.queried| <= k
      && (forall i, j :: 0 <= i < j < |st.queried| ==> st.queried[i] != st.queried[j])
      && Allocation(codes, products) == (if st.found then Ok(codes[k - 1]) else Err(ExhaustedRetries))
      && (st.found ==> st.queried != [] && st.queried[|st.queried| - 1] == codes[k - 1])
  {
    var rows := products.value.rows;
    RunFacts(codes, rows, k);
    if Run(codes, rows, k).found {
      RunFound(codes, rows, k);
      AllocationFound(codes, products, k - 1);
    }
  }

  /** `"test_barcodes/" + code + "_barcode.png"`. */
  function OutputPath(code: string): string {
    OutputDir + code + OutputSuffix
  }

  /** The barcode an output path was built from. */
  function CodeOfPath(path: string): string
    requires |path| >= |OutputDir| + |OutputSuffix|
  {
    path[|OutputDir|..|path| - |OutputSuffix|]
  }

  lemma OutputPathRoundTrip(code: string)
    ensures |OutputPath(code)| == |code| + 26
    ensures CodeOfPath(OutputPath(code)) == code
    ensures OutputPath(code)[..|OutputDir|] == OutputDir
  {
    assert OutputPath(code)[|OutputDir|..|OutputPath(code)| - |OutputSuffix|] == code;
  }

  /** The guard in front of the encoder: the path and its terminating NUL must fit the
      output file-name buffer. */
  function CheckPath(code: string): (r: Result<string>)
    ensures r.Ok? <==> |code| + 26 < OutfileCapacity
    ensures r.Ok? ==> |r.value| == |code| + 26 && CodeOfPath(r.value) == code && r.value[..|OutputDir|] == OutputDir
    ensures r.Err? ==> r.error == PathTooLong
  {
    OutputPathRoundTrip(code);
    var file := OutputPath(code);
    if |file| >= OutfileCapacity then Err(PathTooLong) else Ok(file)
  }

  /** Every allocated barcode's output path fits. */
  lemma DefaultPathFits(code: string)
    requires |code| == DefaultLength
    ensures CheckPath(code) == Ok(OutputPath(code))
  {
  }
}
