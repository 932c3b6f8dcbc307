/**
 * `cleancontact`: one spreadsheet row becomes a contact (first name, last name,
 * e-mail address) or is rejected. The functions here state what the row turns
 * into; `Updater.Updater.CleanContact` performs the same steps in place.
 *
 * A row is the ordered list of its (column name, cell) pairs, because the
 * e-mail column is the first matching one in column order.
 */
module Normalizer {
  import opened Wrappers
  import opened Strings
  import opened Cells
  import opened PyDict
  import opened Email

  type Row = seq<(string, Cell)>

  /** The fields of the cleaned dict that the engine reads: roepnaam, achternaam, e-mailadres. */
  datatype Contact = Contact(firstName: string, lastName: string, email: string)

  /** What cleaning a row appends to the error log, and the contact if the row is kept. */
  datatype Normalized = Normalized(log: seq<string>, contact: Option<Contact>)

  /**
   * The row as a dict keyed by the lower-cased column names, holding the cleaned
   * cell values; a later column overwrites an earlier one of the same lowered name.
   */
  function Lowered(row: Row): Dict
    decreases |row|
  {
    if row == [] then []
    else
      var n := |row| - 1;
      Put(Lowered(row[..n]), Lower(row[n].0), SafeStr(row[n].1))
  }

  /** The last column whose lower-cased name is `k`. */
  function LastColumn(row: Row, k: string): (r: Option<nat>)
    ensures r.Some? ==> r.value < |row| && Lower(row[r.value].0) == k
    ensures r.Some? ==> forall j :: r.value < j < |row| ==> Lower(row[j].0) != k
    ensures r.None? ==> forall j :: 0 <= j < |row| ==> Lower(row[j].0) != k
    decreases |row|
  {
    if row == [] then None
    else if Lower(row[|row| - 1].0) == k then Some(|row| - 1)
    else LastColumn(row[..|row| - 1], k)
  }

  /**
   * Column names that collide once lower-cased keep one entry, holding the
   * cleaned value of the LAST such column.
   */
  lemma {:induction false} LoweredGet(row: Row, k: string)
    ensures Get(Lowered(row), k) ==
      match LastColumn(row, k)
      case None => None
      case Some(j) => Some(SafeStr(row[j].1))
    decreases |row|
  {
    if row != [] {
      var n := |row| - 1;
      LoweredGet(row[..n], k);
      if Lower(row[n].0) == k {
        assert LastColumn(row, k) == Some(n);
      } else {
        assert LastColumn(row, k) == LastColumn(row[..n], k);
        GetPutOther(Lowered(row[..n]), Lower(row[n].0), SafeStr(row[n].1), k);
        match LastColumn(row[..n], k)
        case Some(j) => assert row[..n][j] == row[j];
        case None =>
      }
    }
  }

  // ---- the e-mail column -------------------------------------------------

  /** A key names the e-mail column when, lower-cased and without '-', it contains "email". */
  predicate IsEmailKey(k: string) {
    Contains(Remove(Lower(k), '-'), "email")
  }

  /** The first key that names the e-mail column. */
  function FirstEmailKey(ks: seq<string>): (r: Option<nat>)
    ensures r.Some? ==> r.value < |ks| && IsEmailKey(ks[r.value])
    ensures r.Some? ==> forall j :: 0 <= j < r.value ==> !IsEmailKey(ks[j])
    ensures r.None? ==> forall j :: 0 <= j < |ks| ==> !IsEmailKey(ks[j])
    decreases |ks|
  {
    if ks == [] then None
    else if IsEmailKey(ks[0]) then Some(0)
    else match FirstEmailKey(ks[1..])
      case None => None
      case Some(i) => Some(i + 1)
  }

  lemma FirstEmailKeyAt(ks: seq<string>, i: nat)
    requires i < |ks| && IsEmailKey(ks[i])
    requires forall j :: 0 <= j < i ==> !IsEmailKey(ks[j])
    ensures FirstEmailKey(ks) == Some(i)
  {
  }

  lemma FirstEmailKeyAppend(ks: seq<string>, k: string)
    ensures FirstEmailKey(ks + [k]) ==
      if FirstEmailKey(ks).Some? then FirstEmailKey(ks)
      else if IsEmailKey(k) then Some(|ks|)
      else None
  {
    var ks' := ks + [k];
    match FirstEmailKey(ks)
    case Some(i) => FirstEmailKeyAt(ks', i);
    case None =>
      if IsEmailKey(k) {
        FirstEmailKeyAt(ks', |ks|);
      } else {
        assert forall j :: 0 <= j < |ks'| ==> !IsEmailKey(ks'[j]);
      }
  }

  /**
   * The value of the first entry whose key, lower-cased and without '-', contains
   * "email"; nothing when no key does.
   */
  function EmailField(d: Dict): Option<string> {
    match FirstEmailKey(Keys(d))
    case None => None
    case Some(i) => Get(d, Keys(d)[i])
  }

  /** The lower-cased column names, in column order. */
  function LowerNames(row: Row): (ns: seq<string>)
    ensures |ns| == |row| && forall i :: 0 <= i < |row| ==> ns[i] == Lower(row[i].0)
  {
    seq(|row|, i requires 0 <= i < |row| => Lower(row[i].0))
  }

  /** The first column of the row, in column order, that names the e-mail column. */
  function EmailColumn(row: Row): Option<nat> {
    FirstEmailKey(LowerNames(row))
  }

  lemma EmailColumnAppend(row: Row, x: (string, Cell))
    ensures EmailColumn(row + [x]) ==
      if EmailColumn(row).Some? then EmailColumn(row)
      else if IsEmailKey(Lower(x.0)) then Some(|row|)
      else None
  {
    assert LowerNames(row + [x]) == LowerNames(row) + [Lower(x.0)];
    FirstEmailKeyAppend(LowerNames(row), Lower(x.0));
  }

  /**
   * The first e-mail key of the lowered dict is the lowered name of the first
   * e-mail column of the row.
   */
  lemma {:induction false} LoweredEmailKey(row: Row)
    ensures FirstEmailKey(Keys(Lowered(row))).Some? <==> EmailColumn(row).Some?
    ensures EmailColumn(row).Some? ==>
      Keys(Lowered(row))[FirstEmailKey(Keys(Lowered(row))).value] == Lower(row[EmailColumn(row).value].0)
    decreases |row|
  {
    if row != [] {
      var n := |row| - 1;
      var p, x := row[..n], row[n];
      assert row == p + [x];
      LoweredEmailKey(p);
      EmailColumnAppend(p, x);
      var l := Lowered(p);
      var k := Lower(x.0);
      if !Has(l, k) {
        FirstEmailKeyAppend(Keys(l), k);
      }
    }
  }

  /** The value the e-mail column contributes to the row, as found in the lowered dict. */
  function RowEmail(row: Row): string {
    match EmailColumn(row)
    case None => ""
    case Some(j) => SafeStr(row[LastColumn(row, Lower(row[j].0)).value].1)
  }

  /**
   * The e-mail value is that of the first column, in row order, whose name names
   * the e-mail column; when several columns share that name up to letter case,
   * the last of them supplies the value.
   */
  lemma EmailFromFirstColumn(row: Row)
    ensures EmailColumn(row).None? ==> EmailField(Lowered(row)) == None
    ensures EmailColumn(row).Some? ==> EmailField(Lowered(row)) == Some(RowEmail(row))
  {
    LoweredEmailKey(row);
    if EmailColumn(row).Some? {
      LoweredGet(row, Lower(row[EmailColumn(row).value].0));
    }
  }

  /** With no two column names equal up to case, the e-mail is that of the first matching column. */
  lemma EmailFromFirstColumnDistinct(row: Row)
    requires forall i, j :: 0 <= i < j < |row| ==> Lower(row[i].0) != Lower(row[j].0)
    requires EmailColumn(row).Some?
    ensures RowEmail(row) == SafeStr(row[EmailColumn(row).value].1)
  {
    var j := EmailColumn(row).value;
    var m := LastColumn(row, Lower(row[j].0)).value;
    assert Lower(row[m].0) == Lower(row[j].0);
    assert m == j;
  }

  /** Writing a key that does not name the e-mail column leaves the e-mail field alone. */
  lemma EmailFieldPutOther(d: Dict, k: string, v: string)
    requires !IsEmailKey(k)
    ensures EmailField(Put(d, k, v)) == EmailField(d)
  {
    if !Has(d, k) {
      FirstEmailKeyAppend(Keys(d), k);
    }
  }

  // ---- aliases -----------------------------------------------------------

  /** Copies the value under `src`, when there is one, to `dst`; otherwise leaves the dict alone. */
  function Copy(d: Dict, src: string, dst: string): Dict {
    if Has(d, src) then Put(d, dst, Get(d, src).value) else d
  }

  /** The English column names, in cleancontact's order: prefix, first name, last name, name. */
  function EnglishAliases(d: Dict): Dict {
    var d1 := Copy(d, "prefix", "voorvoegsels");
    var d2 := Copy(d1, "first name", "roepnaam");
    var d3 := Copy(d2, "last name", "achternaam");
    Copy(d3, "name", "achternaam")
  }

  /** Then the Dutch variants: voorvoegsel; voornaam, or else voorletters; naam. */
  function DutchAliases(d: Dict): Dict {
    var d5 := Copy(d, "voorvoegsel", "voorvoegsels");
    var d6 := if Has(d5, "voornaam") then Copy(d5, "voornaam", "roepnaam")
              else Copy(d5, "voorletters", "roepnaam");
    Copy(d6, "naam", "achternaam")
  }

  /** The fixed alias order of cleancontact. */
  function Aliased(d: Dict): Dict {
    DutchAliases(EnglishAliases(d))
  }

  function Or(a: Option<string>, b: Option<string>): Option<string> {
    if a.Some? then a else b
  }

  /**
   * The last alias present wins: the prefix is voorvoegsel, else prefix; the first
   * name is voornaam, else voorletters, else first name; the last name is naam,
   * else name, else last name. Each falls back to a column already carrying the
   * canonical name, and every other key keeps its value.
   */
  lemma AliasPrecedence(d: Dict)
    ensures Get(Aliased(d), "voorvoegsels") ==
      Or(Get(d, "voorvoegsel"), Or(Get(d, "prefix"), Get(d, "voorvoegsels")))
    ensures Get(Aliased(d), "roepnaam") ==
      Or(Get(d, "voornaam"), Or(Get(d, "voorletters"), Or(Get(d, "first name"), Get(d, "roepnaam"))))
    ensures Get(Aliased(d), "achternaam") ==
      Or(Get(d, "naam"), Or(Get(d, "name"), Or(Get(d, "last name"), Get(d, "achternaam"))))
    ensures forall k :: k != "voorvoegsels" && k != "roepnaam" && k != "achternaam" ==>
      Get(Aliased(d), k) == Get(d, k)
  {
    AliasedGetAt(d, "voorvoegsels");
    AliasedGetAt(d, "roepnaam");
    AliasedGetAt(d, "achternaam");
    forall k | k != "voorvoegsels" && k != "roepnaam" && k != "achternaam"
      ensures Get(Aliased(d), k) == Get(d, k)
    {
      AliasedGetAt(d, k);
    }
  }

  lemma AliasedGetAt(d: Dict, k: string)
    ensures Get(Aliased(d), k) == AliasedGet(d, k)
  {
    var d1 := Copy(d, "prefix", "voorvoegsels");
    var d2 := Copy(d1, "first name", "roepnaam");
    var d3 := Copy(d2, "last name", "achternaam");
    var d4 := Copy(d3, "name", "achternaam");
    var d5 := Copy(d4, "voorvoegsel", "voorvoegsels");
    // the alias sources are never written, so every step reads the row's own value
    CopyGet(d, "prefix", "voorvoegsels", "first name");
    CopyGet(d, "prefix", "voorvoegsels", "last name");
    CopyGet(d, "prefix", "voorvoegsels", "name");
    CopyGet(d, "prefix", "voorvoegsels", "voorvoegsel");
    CopyGet(d, "prefix", "voorvoegsels", "voornaam");
    CopyGet(d, "prefix", "voorvoegsels", "voorletters");
    CopyGet(d, "prefix", "voorvoegsels", "naam");
    CopyGet(d, "prefix", "voorvoegsels", k);
    CopyGet(d1, "first name", "roepnaam", "last name");
    CopyGet(d1, "first name", "roepnaam", "name");
    CopyGet(d1, "first name", "roepnaam", "voorvoegsel");
    CopyGet(d1, "first name", "roepnaam", "voornaam");
    CopyGet(d1, "first name", "roepnaam", "voorletters");
    CopyGet(d1, "first name", "roepnaam", "naam");
    CopyGet(d1, "first name", "roepnaam", k);
    CopyGet(d2, "last name", "achternaam", "name");
    CopyGet(d2, "last name", "achternaam", "voorvoegsel");
    CopyGet(d2, "last name", "achternaam", "voornaam");
    CopyGet(d2, "last name", "achternaam", "voorletters");
    CopyGet(d2, "last name", "achternaam", "naam");
    CopyGet(d2, "last name", "achternaam", k);
    CopyGet(d3, "name", "achternaam", "voorvoegsel");
    CopyGet(d3, "name", "achternaam", "voornaam");
    CopyGet(d3, "name", "achternaam", "voorletters");
    CopyGet(d3, "name", "achternaam", "naam");
    CopyGet(d3, "name", "achternaam", k);
    CopyGet(d4, "voorvoegsel", "voorvoegsels", "voornaam");
    CopyGet(d4, "voorvoegsel", "voorvoegsels", "voorletters");
    CopyGet(d4, "voorvoegsel", "voorvoegsels", "naam");
    CopyGet(d4, "voorvoegsel", "voorvoegsels", k);
    var d6 := if Has(d5, "voornaam") then Copy(d5, "voornaam", "roepnaam")
              else Copy(d5, "voorletters", "roepnaam");
    CopyGet(d5, "voornaam", "roepnaam", k);
    CopyGet(d5, "voorletters", "roepnaam", k);
    CopyGet(d5, "voornaam", "roepnaam", "naam");
    CopyGet(d5, "voorletters", "roepnaam", "naam");
    CopyGet(d6, "naam", "achternaam", k);
  }

  lemma CopyGet(d: Dict, src: string, dst: string, k: string)
    ensures Get(Copy(d, src, dst), k) == if k == dst then Or(Get(d, src), Get(d, k)) else Get(d, k)
    ensures Has(d, src) == Get(d, src).Some?
  {
  }

  /** The value of `k` after aliasing, key by key. */
  function AliasedGet(d: Dict, k: string): Option<string> {
    if k == "voorvoegsels" then Or(Get(d, "voorvoegsel"), Or(Get(d, "prefix"), Get(d, k)))
    else if k == "roepnaam" then Or(Get(d, "voornaam"), Or(Get(d, "voorletters"), Or(Get(d, "first name"), Get(d, k))))
    else if k == "achternaam" then Or(Get(d, "naam"), Or(Get(d, "name"), Or(Get(d, "last name"), Get(d, k))))
    else Get(d, k)
  }

  lemma TargetsAreNotEmailKeys()
    ensures !IsEmailKey("voorvoegsels") && !IsEmailKey("roepnaam") && !IsEmailKey("achternaam")
  {
    TargetsHaveNoI();
    NoLetterNoMatch("voorvoegsels");
    NoLetterNoMatch("roepnaam");
    NoLetterNoMatch("achternaam");
  }

  lemma TargetsHaveNoI()
    ensures 'i' !in "voorvoegsels" && 'I' !in "voorvoegsels"
    ensures 'i' !in "roepnaam" && 'I' !in "roepnaam"
    ensures 'i' !in "achternaam" && 'I' !in "achternaam"
  {
  }

  /** A key without the letter 'i' cannot contain "email". */
  lemma NoLetterNoMatch(k: string)
    requires 'i' !in k && 'I' !in k
    ensures !IsEmailKey(k)
  {
    var l := Lower(k);
    assert forall j :: 0 <= j < |l| ==> l[j] != 'i';
    var s := Remove(l, '-');
    assert 'i' !in s;
    if Contains(s, "email") {
      ContainsLetter(s, "email", 3);
      assert false;
    }
  }

  lemma {:induction false} ContainsLetter(s: string, t: string, j: nat)
    requires j < |t| && Contains(s, t)
    ensures t[j] in s
    decreases |s|
  {
    if s[..|t|] == t {
      assert s[j] == t[j];
    } else {
      ContainsLetter(s[1..], t, j);
      assert forall x :: x in s[1..] ==> x in s;
    }
  }

  /** Aliasing never changes which value the e-mail search finds. */
  lemma AliasedKeepsEmail(d: Dict)
    ensures EmailField(Aliased(d)) == EmailField(d)
  {
    TargetsAreNotEmailKeys();
    var d1 := Copy(d, "prefix", "voorvoegsels");
    var d2 := Copy(d1, "first name", "roepnaam");
    var d3 := Copy(d2, "last name", "achternaam");
    var d4 := Copy(d3, "name", "achternaam");
    var d5 := Copy(d4, "voorvoegsel", "voorvoegsels");
    var d6 := if Has(d5, "voornaam") then Copy(d5, "voornaam", "roepnaam")
              else Copy(d5, "voorletters", "roepnaam");
    CopyKeepsEmail(d, "prefix", "voorvoegsels");
    CopyKeepsEmail(d1, "first name", "roepnaam");
    CopyKeepsEmail(d2, "last name", "achternaam");
    CopyKeepsEmail(d3, "name", "achternaam");
    CopyKeepsEmail(d4, "voorvoegsel", "voorvoegsels");
    CopyKeepsEmail(d5, "voornaam", "roepnaam");
    CopyKeepsEmail(d5, "voorletters", "roepnaam");
    CopyKeepsEmail(d6, "naam", "achternaam");
  }

  lemma CopyKeepsEmail(d: Dict, src: string, dst: string)
    requires !IsEmailKey(dst)
    ensures EmailField(Copy(d, src, dst)) == EmailField(d)
  {
    if Has(d, src) {
      EmailFieldPutOther(d, dst, Get(d, src).value);
    }
  }

  // ---- the whole row -----------------------------------------------------

  /** The address stored in e-mailadres: the cleaned e-mail value, or "" when none was found or it is empty. */
  function CleanedEmail(d: Dict): string {
    match EmailField(d)
    case None => ""
    case Some(v) => if v != "" then SafeStr(Text(v)) else ""
  }

  /** The address cleancontact settles on is the one the e-mail column supplies. */
  lemma CleanedEmailIsRowEmail(row: Row)
    ensures CleanedEmail(Aliased(Lowered(row))) == RowEmail(row)
  {
    AliasedKeepsEmail(Lowered(row));
    EmailFromFirstColumn(row);
    if EmailColumn(row).Some? {
      var j := EmailColumn(row).value;
      SafeStrIdempotent(row[LastColumn(row, Lower(row[j].0)).value].1);
    }
  }

  function FirstNameWarning(email: string): string {
    "Warning: First name missing for " + email
  }

  function LastNameWarning(email: string): string {
    "Warning: Last name missing for " + email
  }

  function InvalidEmailError(index: nat): string {
    "Error: Invalid email address (index = " + NatToString(index) + ")"
  }

  /** The keys cleancontact fills in are pairwise different. */
  lemma FilledKeysDistinct()
    ensures "e-mailadres" != "roepnaam" && "e-mailadres" != "achternaam" && "e-mailadres" != "voorvoegsels"
    ensures "roepnaam" != "achternaam" && "roepnaam" != "voorvoegsels" && "achternaam" != "voorvoegsels"
  {
    assert |"e-mailadres"| == 11 && |"roepnaam"| == 8 && |"achternaam"| == 10 && |"voorvoegsels"| == 12;
  }

  /** The warnings for a missing first name, then a missing last name, citing the address. */
  function NameWarnings(email: string, first: string, last: string): seq<string> {
    (if first == "" then [FirstNameWarning(email)] else [])
    + (if last == "" then [LastNameWarning(email)] else [])
  }

  /** The steps of cleancontact after the aliases: e-mail, missing names, prefix, validation. */
  function Finish(d: Dict, index: nat): Normalized {
    var email := CleanedEmail(d);
    var first := GetOr(d, "roepnaam", "");
    var last := GetOr(d, "achternaam", "");
    var warnings := NameWarnings(email, first, last);
    var prefix := GetOr(d, "voorvoegsels", "");
    var lastName := if prefix != "" then prefix + " " + last else last;
    if IsValidEmail(email) then Normalized(warnings, Some(Contact(first, lastName, email)))
    else Normalized(warnings + [InvalidEmailError(index)], None)
  }

  /** cleancontact: the log a row produces and its contact, or nothing when the row is rejected. */
  function Normalize(row: Row, index: nat): Normalized {
    Finish(Aliased(Lowered(row)), index)
  }

  /** A row is kept exactly when its e-mail value passes is_valid_email. */
  lemma RejectedIffInvalid(row: Row, index: nat)
    ensures Normalize(row, index).contact.Some? <==> IsValidEmail(RowEmail(row))
    ensures Normalize(row, index).contact.Some? ==> Normalize(row, index).contact.value.email == RowEmail(row)
    ensures Normalize(row, index).contact.None? ==>
      |Normalize(row, index).log| >= 1 && Normalize(row, index).log[|Normalize(row, index).log| - 1] == InvalidEmailError(index)
  {
    CleanedEmailIsRowEmail(row);
  }

  /** A row without any e-mail column is rejected. */
  lemma NoEmailColumnRejected(row: Row, index: nat)
    requires EmailColumn(row).None?
    ensures Normalize(row, index).contact.None?
  {
    CleanedEmailIsRowEmail(row);
  }

  /**
   * The log entries of one row: the first-name warning (if the first name is
   * empty), then the last-name warning (if the last name is empty), both citing
   * the row's e-mail value, then the error if the row is rejected. Warnings never
   * reject a row, and the prefix is joined to the last name by one space after
   * the missing-name check.
   */
  lemma WarningsAndPrefix(row: Row, index: nat)
    ensures
      var d := Aliased(Lowered(row));
      var email := RowEmail(row);
      var first := GetOr(d, "roepnaam", "");
      var last := GetOr(d, "achternaam", "");
      var prefix := GetOr(d, "voorvoegsels", "");
      var n := Normalize(row, index);
      && n.log == (if first == "" then [FirstNameWarning(email)] else [])
                + (if last == "" then [LastNameWarning(email)] else [])
                + (if n.contact.None? then [InvalidEmailError(index)] else [])
      && (n.contact.Some? ==>
            && n.contact.value.firstName == first
            && n.contact.value.lastName == (if prefix == "" then last else prefix + " " + last))
  {
    CleanedEmailIsRowEmail(row);
  }
}
