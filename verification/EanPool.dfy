// The pool of single-use EAN codes (apps/ean). Rows are kept in primary-key order and are
// never deleted, so an index identifies a row for good.
module EanPool {
  import opened Common
  import Gtin

  datatype EanState = Available | Reserved | Consumed

  type ProductId = nat

  datatype EanRow = EanRow(code: string, account: Account, owner: Option<ProductId>, state: EanState)

  // The two code fields of a product; "" is the blank field.
  datatype EanCard = EanCard(jv: string, xl: string) {
    function CodeFor(account: Account): string {
      if account == JV then jv else xl
    }
  }

  function Codes(rows: seq<EanRow>): set<string> {
    set r | r in rows :: r.code
  }

  // ---- import ----

  function WithoutBlanks(s: string): string {
    if s == "" then "" else (if s[0] == ' ' then "" else [s[0]]) + WithoutBlanks(s[1..])
  }

  function Clean(line: string): string {
    WithoutBlanks(Strip(line))
  }

  // Parts of a code with blanks between them, and without.
  function Spaced(parts: seq<string>): string {
    if parts == [] then "" else if |parts| == 1 then parts[0] else parts[0] + " " + Spaced(parts[1..])
  }

  function Joined(parts: seq<string>): string {
    if parts == [] then "" else parts[0] + Joined(parts[1..])
  }

  predicate Solid(s: string) {
    s != "" && forall i | 0 <= i < |s| :: !IsSpace(s[i])
  }

  lemma {:induction false} WithoutBlanksAppend(a: string, b: string)
    ensures WithoutBlanks(a + b) == WithoutBlanks(a) + WithoutBlanks(b)
  {
    if a == "" {
      assert a + b == b;
    } else {
      assert (a + b)[1..] == a[1..] + b;
      WithoutBlanksAppend(a[1..], b);
    }
  }

  lemma {:induction false} SolidStays(s: string)
    requires forall i | 0 <= i < |s| :: s[i] != ' '
    ensures WithoutBlanks(s) == s
  {
    if s != "" {
      SolidStays(s[1..]);
    }
  }

  predicate AllSolid(parts: seq<string>) {
    forall i | 0 <= i < |parts| :: Solid(parts[i])
  }

  lemma RestIsSolid(parts: seq<string>)
    requires AllSolid(parts) && parts != []
    ensures Solid(parts[0]) && AllSolid(parts[1..])
  {
    assert forall i | 0 <= i < |parts[1..]| :: parts[1..][i] == parts[i + 1];
  }

  lemma {:induction false} SpacedIsJoined(parts: seq<string>)
    requires AllSolid(parts)
    ensures WithoutBlanks(Spaced(parts)) == Joined(parts)
  {
    if parts != [] {
      RestIsSolid(parts);
      SolidStays(parts[0]);
      SpacedIsJoined(parts[1..]);
      if |parts| > 1 {
        BlankGoes(parts[0], Spaced(parts[1..]));
      } else {
        assert parts[1..] == [] && Joined([]) == "";
      }
    }
  }

  lemma {:induction false} BlankGoes(a: string, b: string)
    ensures WithoutBlanks(a + " " + b) == WithoutBlanks(a) + WithoutBlanks(b)
  {
    WithoutBlanksAppend(a + " ", b);
    WithoutBlanksAppend(a, " ");
    assert WithoutBlanks(" "[1..]) == "";
  }

  lemma {:induction false} SpacedIsBare(parts: seq<string>)
    requires AllSolid(parts)
    ensures Bare(Spaced(parts)) && (parts != [] ==> Spaced(parts) != "")
  {
    if parts != [] {
      RestIsSolid(parts);
      SpacedIsBare(parts[1..]);
    }
  }

  // A code written in groups is read as one code: blanks around it and between its groups go, all
  // else stays in its order.
  lemma GroupsAreJoined(left: string, parts: seq<string>, right: string)
    requires AllSpace(left) && AllSpace(right) && AllSolid(parts)
    ensures Clean(left + Spaced(parts) + right) == Joined(parts)
  {
    SpacedIsJoined(parts);
    SpacedIsBare(parts);
    StripSays(left, Spaced(parts), right);
  }

  function NonBlank(lines: seq<string>): nat {
    if lines == [] then 0
    else NonBlank(lines[..|lines| - 1]) + (if Clean(lines[|lines| - 1]) == "" then 0 else 1)
  }

  function NewRow(code: string, account: Account): EanRow {
    EanRow(code, account, None, Available)
  }

  function NewRows(codes: seq<string>, account: Account): seq<EanRow> {
    seq(|codes|, i requires 0 <= i < |codes| => NewRow(codes[i], account))
  }

  // Importing line by line: a valid code the pool does not hold yet becomes an available row.
  function Imported(rows: seq<EanRow>, account: Account, lines: seq<string>): seq<EanRow> {
    if lines == [] then rows
    else
      var before := Imported(rows, account, lines[..|lines| - 1]);
      var code := Clean(lines[|lines| - 1]);
      if Gtin.ValidGtin(code) && code !in Codes(before) then before + [NewRow(code, account)] else before
  }

  datatype ImportReport = ImportReport(created: nat, alreadyExists: nat, duplicates: nat, invalid: nat)

  function Missing(codes: seq<string>, have: set<string>): seq<string> {
    if codes == [] then []
    else
      var last := codes[|codes| - 1];
      Missing(codes[..|codes| - 1], have) + (if last in have then [] else [last])
  }

  lemma {:induction false} MissingSpec(codes: seq<string>, have: set<string>)
    ensures forall c :: c in Missing(codes, have) <==> c in codes && c !in have
  {
    if codes != [] {
      var front, last := codes[..|codes| - 1], codes[|codes| - 1];
      MissingSpec(front, have);
      assert codes == front + [last];
    }
  }

  lemma CodesAppend(rows: seq<EanRow>, more: seq<EanRow>)
    ensures Codes(rows + more) == Codes(rows) + Codes(more)
  {
    forall c | c in Codes(rows) + Codes(more) ensures c in Codes(rows + more) {
      var r :| r in rows + more && r.code == c;
    }
  }

  lemma CodesOfNewRows(codes: seq<string>, account: Account)
    ensures forall c :: c in Codes(NewRows(codes, account)) <==> c in codes
  {
    forall c | c in codes ensures c in Codes(NewRows(codes, account)) {
      var i :| 0 <= i < |codes| && codes[i] == c;
      assert NewRows(codes, account)[i] in NewRows(codes, account);
    }
  }

  // Distinct valid (or distinct invalid) codes of a text, in order of first occurrence.
  ghost function DistinctCodes(lines: seq<string>, valid: bool): seq<string> {
    if lines == [] then []
    else
      var before, code := DistinctCodes(lines[..|lines| - 1], valid), Clean(lines[|lines| - 1]);
      if code != "" && Gtin.ValidGtin(code) == valid && code !in before then before + [code] else before
  }

  lemma ImportStep(rows: seq<EanRow>, account: Account, valid: seq<string>, code: string)
    ensures var pool := rows + NewRows(Missing(valid, Codes(rows)), account);
            var more := if code in valid then valid else valid + [code];
            rows + NewRows(Missing(more, Codes(rows)), account)
            == if code in Codes(pool) then pool else pool + [NewRow(code, account)]
  {
    var have := Codes(rows);
    var missing := Missing(valid, have);
    MissingSpec(valid, have);
    CodesAppend(rows, NewRows(missing, account));
    CodesOfNewRows(missing, account);
    assert (valid + [code])[..|valid|] == valid;
    assert NewRows(missing + [code], account) == NewRows(missing, account) + [NewRow(code, account)];
  }

  // The batch the source creates is the line-by-line import.
  lemma {:induction false} BatchIsLineByLine(rows: seq<EanRow>, account: Account, lines: seq<string>)
    ensures Imported(rows, account, lines) == rows + NewRows(Missing(DistinctCodes(lines, true), Codes(rows)), account)
  {
    if lines != [] {
      var front, code, have := lines[..|lines| - 1], Clean(lines[|lines| - 1]), Codes(rows);
      var valid := DistinctCodes(front, true);
      BatchIsLineByLine(rows, account, front);
      if Gtin.ValidGtin(code) {
        ImportStep(rows, account, valid, code);
      }
    }
  }

  // A second import of the same text, into any account, creates nothing.
  lemma {:induction false} ImportKnownLines(rows: seq<EanRow>, account: Account, lines: seq<string>)
    requires forall l | l in lines && Gtin.ValidGtin(Clean(l)) :: Clean(l) in Codes(rows)
    ensures Imported(rows, account, lines) == rows
  {
    if lines != [] {
      ImportKnownLines(rows, account, lines[..|lines| - 1]);
      assert lines[|lines| - 1] in lines;
    }
  }

  lemma {:induction false} ImportCoversLines(rows: seq<EanRow>, account: Account, lines: seq<string>)
    ensures rows <= Imported(rows, account, lines)
    ensures forall l | l in lines && Gtin.ValidGtin(Clean(l)) :: Clean(l) in Codes(Imported(rows, account, lines))
  {
    if lines != [] {
      var front, code := lines[..|lines| - 1], Clean(lines[|lines| - 1]);
      ImportCoversLines(rows, account, front);
      var before := Imported(rows, account, front);
      CodesAppend(before, [NewRow(code, account)]);
      assert NewRow(code, account) in [NewRow(code, account)];
      assert lines == front + [lines[|lines| - 1]];
    }
  }

  lemma RepeatedImportCreatesNothing(rows: seq<EanRow>, account: Account, other: Account, lines: seq<string>)
    ensures Imported(Imported(rows, account, lines), other, lines) == Imported(rows, account, lines)
  {
    ImportCoversLines(rows, account, lines);
    ImportKnownLines(Imported(rows, account, lines), other, lines);
  }

  // ---- assignment, consumption, release ----

  predicate Free(row: EanRow, account: Account) {
    row.account == account && row.state == Available && row.owner.None?
  }

  // Lowest free row of the account that no concurrent transaction has locked.
  function FirstFree(rows: seq<EanRow>, account: Account, locked: set<nat>, from: nat := 0): (found: Option<nat>)
    requires from <= |rows|
    ensures found.Some? ==> from <= found.value < |rows| && Free(rows[found.value], account) && found.value !in locked
    ensures found.None? ==> forall i | from <= i < |rows| && i !in locked :: !Free(rows[i], account)
    ensures found.Some? ==> forall i | from <= i < found.value && i !in locked :: !Free(rows[i], account)
    decreases |rows| - from
  {
    if from == |rows| then None
    else if from !in locked && Free(rows[from], account) then Some(from)
    else FirstFree(rows, account, locked, from + 1)
  }

  function Reserve(row: EanRow, product: ProductId): EanRow {
    row.(owner := Some(product), state := Reserved)
  }

  datatype Assignment = NoFreeCode(account: Account) | Assigned(rows: seq<EanRow>, card: EanCard)

  function Assign(rows: seq<EanRow>, card: EanCard, product: ProductId, locked: set<nat>): Assignment {
    if card.jv != "" && card.xl != "" then Assigned(rows, card)
    else
      match FirstFree(rows, JV, locked)
      case None => NoFreeCode(JV)
      case Some(j) =>
        var rows1 := rows[j := Reserve(rows[j], product)];
        match FirstFree(rows1, XL, locked)
        case None => NoFreeCode(XL)
        case Some(x) => Assigned(rows1[x := Reserve(rows1[x], product)], EanCard(rows[j].code, rows1[x].code))
  }

  predicate Holds(row: EanRow, product: ProductId, account: Account, code: string) {
    row.owner == Some(product) && row.account == account && row.code == code
  }

  function FindRow(rows: seq<EanRow>, product: ProductId, account: Account, code: string, from: nat := 0): (found: Option<nat>)
    requires from <= |rows|
    ensures found.Some? ==> from <= found.value < |rows| && Holds(rows[found.value], product, account, code)
    ensures found.None? ==> forall i | from <= i < |rows| :: !Holds(rows[i], product, account, code)
    decreases |rows| - from
  {
    if from == |rows| then None
    else if Holds(rows[from], product, account, code) then Some(from)
    else FindRow(rows, product, account, code, from + 1)
  }

  datatype Consumption = Refused | AlreadyConsumed | NewlyConsumed(index: nat)

  function Consume(rows: seq<EanRow>, card: EanCard, product: ProductId, account: Account): (r: Consumption)
    ensures r.NewlyConsumed? ==>
              r.index < |rows| && rows[r.index].state == Reserved && Holds(rows[r.index], product, account, card.CodeFor(account))
  {
    var code := card.CodeFor(account);
    if code == "" then Refused
    else
      match FindRow(rows, product, account, code)
      case None => Refused
      case Some(i) =>
        if rows[i].state == Consumed then AlreadyConsumed
        else if rows[i].state == Reserved then NewlyConsumed(i)
        else Refused
  }

  function AfterConsume(rows: seq<EanRow>, r: Consumption): seq<EanRow>
    requires r.NewlyConsumed? ==> r.index < |rows|
  {
    if r.NewlyConsumed? then rows[r.index := rows[r.index].(state := Consumed)] else rows
  }

  // Withdrawing a submission frees the product's reserved rows; consumed rows keep their owner.
  function ReleaseRow(row: EanRow, product: ProductId): EanRow {
    if row.owner == Some(product) && row.state == Reserved then row.(owner := None, state := Available) else row
  }

  function Release(rows: seq<EanRow>, product: ProductId): (r: seq<EanRow>)
    ensures |r| == |rows| && forall i | 0 <= i < |rows| :: r[i] == ReleaseRow(rows[i], product)
  {
    seq(|rows|, i requires 0 <= i < |rows| => ReleaseRow(rows[i], product))
  }

  // Purging a seller detaches every row of the deleted products; consumed codes stay consumed.
  function DetachRow(row: EanRow, products: set<ProductId>): EanRow {
    if row.owner.Some? && row.owner.value in products
    then row.(owner := None, state := if row.state == Reserved then Available else row.state)
    else row
  }

  function Detach(rows: seq<EanRow>, products: set<ProductId>): (r: seq<EanRow>)
    ensures |r| == |rows| && forall i | 0 <= i < |rows| :: r[i] == DetachRow(rows[i], products)
  {
    seq(|rows|, i requires 0 <= i < |rows| => DetachRow(rows[i], products))
  }

  // ---- what every operation keeps ----

  predicate RowOk(row: EanRow) {
    && row.code != ""
    && (row.state == Available ==> row.owner.None?)
    && (row.state == Reserved ==> row.owner.Some?)
  }

  predicate PoolOk(rows: seq<EanRow>) {
    && (forall i | 0 <= i < |rows| :: RowOk(rows[i]))
    && (forall i, j | 0 <= i < j < |rows| :: rows[i].code != rows[j].code)
  }

  // Rows never disappear or change identity, a consumed row stays consumed, and a consumed row
  // can lose its product but never gets another one.
  predicate RowAdvances(old_: EanRow, new_: EanRow) {
    && new_.code == old_.code && new_.account == old_.account
    && (old_.state == Consumed ==> new_.state == Consumed && (new_.owner == old_.owner || new_.owner.None?))
  }

  predicate PoolAdvances(old_: seq<EanRow>, new_: seq<EanRow>) {
    |old_| <= |new_| && forall i | 0 <= i < |old_| :: RowAdvances(old_[i], new_[i])
  }

  lemma ImportKeepsPool(rows: seq<EanRow>, account: Account, lines: seq<string>)
    requires PoolOk(rows)
    ensures PoolOk(Imported(rows, account, lines)) && PoolAdvances(rows, Imported(rows, account, lines))
    ensures rows <= Imported(rows, account, lines)
    ensures forall i | |rows| <= i < |Imported(rows, account, lines)| :: Imported(rows, account, lines)[i].owner.None?
  {
    if lines != [] {
      ImportKeepsPool(rows, account, lines[..|lines| - 1]);
      var before := Imported(rows, account, lines[..|lines| - 1]);
      assert forall i | 0 <= i < |before| :: before[i] in before && before[i].code in Codes(before);
    }
  }

  lemma AssignKeepsPool(rows: seq<EanRow>, card: EanCard, product: ProductId, locked: set<nat>)
    requires PoolOk(rows)
    ensures var a := Assign(rows, card, product, locked);
            a.Assigned? ==>
              && PoolOk(a.rows) && PoolAdvances(rows, a.rows) && |a.rows| == |rows|
              && forall i | 0 <= i < |rows| && rows[i].state != Available :: a.rows[i] == rows[i]
  {
  }

  // The first row of the account that is free and not locked by another transaction.
  predicate IsNext(rows: seq<EanRow>, account: Account, locked: set<nat>, i: nat) {
    && i < |rows| && i !in locked && rows[i].account == account && rows[i].state == Available && rows[i].owner.None?
    && forall n | 0 <= n < i && n !in locked :: !(rows[n].account == account && rows[n].state == Available && rows[n].owner.None?)
  }

  // A card with both codes is left alone; another one gets the next row of each account, whatever
  // single code it has, and that fails exactly when an account has no row left.
  lemma AssignSays(rows: seq<EanRow>, card: EanCard, product: ProductId, locked: set<nat>, j: nat, x: nat)
    ensures var a := Assign(rows, card, product, locked);
            && (card.jv != "" && card.xl != "" ==> a == Assigned(rows, card))
            && (card.jv == "" || card.xl == "" ==>
                  && (IsNext(rows, JV, locked, j) && IsNext(rows, XL, locked, x) ==>
                        a == Assigned(rows[j := EanRow(rows[j].code, JV, Some(product), Reserved)][x := EanRow(rows[x].code, XL, Some(product), Reserved)],
                                      EanCard(rows[j].code, rows[x].code)))
                  && (a == NoFreeCode(JV) <==> forall i | 0 <= i < |rows| :: !IsNext(rows, JV, locked, i))
                  && (a == NoFreeCode(XL) ==> forall i | 0 <= i < |rows| :: !IsNext(rows, XL, locked, i))
                  && (a.Assigned? ==> exists i | 0 <= i < |rows| :: IsNext(rows, XL, locked, i)))
  {
    if card.jv == "" || card.xl == "" {
      NextIsFirst(rows, JV, locked);
      var first := FirstFree(rows, JV, locked);
      if first.Some? {
        var half := rows[first.value := Reserve(rows[first.value], product)];
        NextIsFirst(half, XL, locked);
        forall i | 0 <= i < |rows| ensures IsNext(half, XL, locked, i) <==> IsNext(rows, XL, locked, i) {
        }
      }
    }
  }

  lemma NextIsFirst(rows: seq<EanRow>, account: Account, locked: set<nat>)
    ensures var found := FirstFree(rows, account, locked);
            && (found.Some? ==> IsNext(rows, account, locked, found.value))
            && forall i | 0 <= i < |rows| && IsNext(rows, account, locked, i) :: found == Some(i)
  {
    var found := FirstFree(rows, account, locked);
    forall i | 0 <= i < |rows| && IsNext(rows, account, locked, i) ensures found == Some(i) {
      assert Free(rows[i], account);
    }
  }

  class Pool {
    var rows: seq<EanRow>

    ghost predicate Valid()
      reads this
    {
      PoolOk(rows)
    }

    constructor ()
      ensures Valid() && rows == []
    {
      rows := [];
    }

    // Every non-blank line falls into exactly one of the four counted classes.
    method ImportEanCodes(account: Account, lines: seq<string>) returns (report: ImportReport)
      requires Valid()
      modifies this
      ensures Valid()
      ensures rows == Imported(old(rows), account, lines)
      ensures report.created == |rows| - |old(rows)|
      ensures report.created + report.alreadyExists == |DistinctCodes(lines, true)|
      ensures report.invalid == |DistinctCodes(lines, false)|
      ensures report.created + report.alreadyExists + report.duplicates + report.invalid == NonBlank(lines)
    {
      var seen: set<string>, valid: seq<string>, invalid: seq<string> := {}, [], [];
      var duplicates := 0;
      for i := 0 to |lines|
        invariant rows == old(rows)
        invariant forall c :: c in seen <==> c in valid || c in invalid
        invariant forall c | c in invalid :: !Gtin.ValidGtin(c)
        invariant forall c | c in valid :: Gtin.ValidGtin(c)
        invariant valid == DistinctCodes(lines[..i], true)
        invariant invalid == DistinctCodes(lines[..i], false)
        invariant |valid| + |invalid| + duplicates == NonBlank(lines[..i])
      {
        assert lines[..i + 1][..i] == lines[..i];
        var code := Clean(lines[i]);
        if code == "" {
          continue;
        }
        if code in seen {
          duplicates := duplicates + 1;
          continue;
        }
        seen := seen + {code};
        var ok := Gtin.IsValidGtin(code);
        if !ok {
          invalid := invalid + [code];
          continue;
        }
        valid := valid + [code];
      }
      assert lines[..|lines|] == lines;
      var newCodes := [];
      var existing := 0;
      for i := 0 to |valid|
        invariant rows == old(rows)
        invariant newCodes == Missing(valid[..i], Codes(rows))
        invariant existing + |newCodes| == i
      {
        assert valid[..i + 1][..i] == valid[..i];
        if valid[i] in Codes(rows) {
          existing := existing + 1;
        } else {
          newCodes := newCodes + [valid[i]];
        }
      }
      assert valid[..|valid|] == valid;
      BatchIsLineByLine(rows, account, lines);
      ImportKeepsPool(rows, account, lines);
      rows := rows + NewRows(newCodes, account);
      report := ImportReport(|newCodes|, existing, duplicates, |invalid|);
    }

    // One row per account, or nothing at all.
    method AssignEanCodes(product: ProductId, card: EanCard, locked: set<nat>) returns (result: Assignment)
      requires Valid()
      modifies this
      ensures Valid()
      ensures result == Assign(old(rows), card, product, locked)
      ensures rows == if result.Assigned? then result.rows else old(rows)
    {
      AssignKeepsPool(rows, card, product, locked);
      if card.jv != "" && card.xl != "" {
        return Assigned(rows, card);
      }
      var before := rows;
      var accounts := [JV, XL];
      var codes := [];
      for n := 0 to 2
        invariant |codes| == n
        invariant n == 0 ==> rows == before
        invariant n == 1 ==>
          var j := FirstFree(before, JV, locked);
          j.Some? && rows == before[j.value := Reserve(before[j.value], product)] && codes == [before[j.value].code]
        invariant n == 2 ==> Assign(before, card, product, locked) == Assigned(rows, EanCard(codes[0], codes[1]))
      {
        var found := FirstFree(rows, accounts[n], locked);
        if found.None? {
          rows := before;
          return NoFreeCode(accounts[n]);
        }
        codes := codes + [rows[found.value].code];
        rows := rows[found.value := Reserve(rows[found.value], product)];
      }
      result := Assigned(rows, EanCard(codes[0], codes[1]));
    }

    method ConsumeEanCode(product: ProductId, card: EanCard, account: Account) returns (result: Consumption)
      requires Valid()
      modifies this
      ensures Valid()
      ensures result == Consume(old(rows), card, product, account)
      ensures rows == AfterConsume(old(rows), result)
    {
      var code := card.CodeFor(account);
      if code == "" {
        return Refused;
      }
      var found := FindRow(rows, product, account, code);
      if found.None? {
        return Refused;
      }
      var row := rows[found.value];
      if row.state == Consumed {
        return AlreadyConsumed;
      }
      if row.state != Reserved {
        return Refused;
      }
      rows := rows[found.value := row.(state := Consumed)];
      result := NewlyConsumed(found.value);
    }

    method DetachEans(products: set<ProductId>)
      requires Valid()
      modifies this
      ensures Valid()
      ensures rows == Detach(old(rows), products)
    {
      for i := 0 to |rows|
        invariant |rows| == |old(rows)|
        invariant forall k | 0 <= k < i :: rows[k] == DetachRow(old(rows)[k], products)
        invariant forall k | i <= k < |rows| :: rows[k] == old(rows)[k]
      {
        var row := rows[i];
        if row.owner.Some? && row.owner.value in products {
          if row.state == Reserved {
            row := row.(state := Available);
          }
          rows := rows[i := row.(owner := None)];
        }
      }
    }
  }
}
