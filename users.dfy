/**
 * The logic of the administrators' user page, FrontEnd/src/pages/Users.jsx: the
 * Brazilian phone and CPF masks, the normalised user list, the counters, the search
 * and the create/edit form validator.
 */
module Users {
  import opened Wrappers
  import opened Js
  import opened Seqs
  import Email
  import opened FormRules

  // ---------------------------------------------------------------------------
  // Masks

  /** `.replace(/[chars]$/, '')`: drop one trailing character of the class. */
  function DropTrailing(s: string, chars: set<char>): (r: string)
    ensures s != [] && s[|s| - 1] in chars ==> r == s[..|s| - 1]
    ensures !(s != [] && s[|s| - 1] in chars) ==> r == s
  {
    if s != [] && s[|s| - 1] in chars then s[..|s| - 1] else s
  }

  /** The characters the phone mask inserts. */
  predicate PhoneChar(c: char) {
    IsDigit(c) || c == '(' || c == ')' || c == ' ' || c == '-'
  }

  /** The characters the CPF mask inserts. */
  predicate CpfChar(c: char) {
    IsDigit(c) || c == '.' || c == '-'
  }

  /** Every character of s satisfies p. */
  predicate AllOf(s: string, p: char -> bool) {
    forall i :: 0 <= i < |s| ==> p(s[i])
  }

  lemma AllOfAppend(x: string, y: string, p: char -> bool)
    requires AllOf(x, p) && AllOf(y, p)
    ensures AllOf(x + y, p)
  {
    forall i | 0 <= i < |x + y| ensures p((x + y)[i]) {
      if i >= |x| {
        assert (x + y)[i] == y[i - |x|];
      }
    }
  }

  /** Appending punctuation adds no digit; appending digits adds exactly them. */
  lemma AppendPunct(x: string, lit: string)
    requires DigitsOf(lit) == ""
    ensures DigitsOf(x + lit) == DigitsOf(x)
  {
    DigitsOfAppend(x, lit);
  }

  lemma AppendDigits(x: string, d: string)
    requires AllDigits(d)
    ensures DigitsOf(x + d) == DigitsOf(x) + d
  {
    DigitsOfAppend(x, d);
    DigitsOfDigits(d);
  }

  /** The replacement '($1) $2-$3'. */
  function PhoneMask(a: string, b: string, c: string): string {
    "(" + a + ") " + b + "-" + c
  }

  /** The mask keeps exactly its groups' digits. */
  lemma PhoneMaskDigits(a: string, b: string, c: string)
    requires AllDigits(a) && AllDigits(b) && AllDigits(c)
    ensures DigitsOf("(" + a + ") " + b) == a + b
    ensures DigitsOf(PhoneMask(a, b, c)) == a + b + c
  {
    var s1 := "(" + a;
    var s2 := s1 + ") ";
    var s3 := s2 + b;
    var s4 := s3 + "-";
    assert DigitsOf(s1) == a by {
      assert DigitsOf("(") == "";
      DigitsOfDigits(a);
      DigitsOfAppend("(", a);
    }
    assert DigitsOf(s2) == a by {
      assert DigitsOf(") ") == "";
      AppendPunct(s1, ") ");
    }
    assert DigitsOf(s3) == a + b by {
      AppendDigits(s2, b);
    }
    assert DigitsOf(s4) == a + b by {
      assert DigitsOf("-") == "";
      AppendPunct(s3, "-");
    }
    assert DigitsOf(s4 + c) == a + b + c by {
      AppendDigits(s4, c);
    }
  }

  /** The mask adds only '(', ')', ' ' and '-' to its digit groups. */
  lemma PhoneMaskChars(a: string, b: string, c: string)
    requires AllDigits(a) && AllDigits(b) && AllDigits(c)
    ensures AllOf("(" + a + ") " + b, PhoneChar)
    ensures AllOf(PhoneMask(a, b, c), PhoneChar)
  {
    var s1 := "(" + a;
    var s2 := s1 + ") ";
    var s3 := s2 + b;
    var s4 := s3 + "-";
    assert AllOf("(", PhoneChar) && AllOf(") ", PhoneChar) && AllOf("-", PhoneChar);
    assert AllOf(a, PhoneChar) && AllOf(b, PhoneChar) && AllOf(c, PhoneChar);
    AllOfAppend("(", a, PhoneChar);
    AllOfAppend(s1, ") ", PhoneChar);
    AllOfAppend(s2, b, PhoneChar);
    AllOfAppend(s3, "-", PhoneChar);
    AllOfAppend(s4, c, PhoneChar);
  }

  /** `formatPhone`: "(DD) DDDD-DDDD" up to 10 digits, "(DD) DDDDD-DDDD…" from 11 on. */
  function FormatPhone(value: string): (r: string)
    ensures value == "" ==> r == ""
    ensures var n := DigitsOf(value);
            (value != "" && |n| < 6 ==> r == n)
            && (|n| == 6 ==> r == "(" + n[..2] + ") " + n[2..6])
            && (6 < |n| <= 10 ==> r == PhoneMask(n[..2], n[2..6], n[6..]))
            && (|n| >= 11 ==> r == PhoneMask(n[..2], n[2..7], n[7..11]) + n[11..])
  {
    if value == "" then ""
    else
      var n := DigitsOf(value);
      if |n| <= 10 then
        if |n| >= 6 then
          var m := PhoneMask(n[..2], n[2..6], n[6..]);
          assert |n| == 6 ==> m[..|m| - 1] == "(" + n[..2] + ") " + n[2..6];
          DropTrailing(m, {'-'})
        else n
      else PhoneMask(n[..2], n[2..7], n[7..11]) + n[11..]
  }

  /** The phone mask keeps the input's digits in order and inserts only punctuation. */
  lemma FormatPhoneDigits(value: string)
    ensures DigitsOf(FormatPhone(value)) == DigitsOf(value)
    ensures AllOf(FormatPhone(value), PhoneChar)
  {
    var n := DigitsOf(value);
    if value != "" {
      if |n| < 6 {
        DigitsOfDigits(n);
      } else if |n| <= 10 {
        PhoneMaskDigits(n[..2], n[2..6], n[6..]);
        PhoneMaskChars(n[..2], n[2..6], n[6..]);
        assert n[..2] + n[2..6] + n[6..] == n;
        if |n| == 6 {
          assert n[..2] + n[2..6] == n;
        }
      } else {
        PhoneMaskDigits(n[..2], n[2..7], n[7..11]);
        PhoneMaskChars(n[..2], n[2..7], n[7..11]);
        AppendDigits(PhoneMask(n[..2], n[2..7], n[7..11]), n[11..]);
        assert n[..2] + n[2..7] + n[7..11] + n[11..] == n;
        AllOfAppend(PhoneMask(n[..2], n[2..7], n[7..11]), n[11..], PhoneChar);
      }
    }
  }

  /** The phone mask never ends in '-'. */
  lemma FormatPhoneNoTrailingDash(value: string)
    ensures var r := FormatPhone(value); r == [] || r[|r| - 1] != '-'
  {
    var n := DigitsOf(value);
    if value != "" && |n| > 6 {
      var r := FormatPhone(value);
      var tail := if |n| <= 10 then n[6..] else n[7..11] + n[11..];
      assert r[|r| - 1] == tail[|tail| - 1];
    }
  }

  /** The replacement '$1.$2.$3-$4'. */
  function CpfMask(a: string, b: string, c: string, d: string): string {
    a + "." + b + "." + c + "-" + d
  }

  /** The mask keeps exactly its groups' digits. */
  lemma CpfMaskDigits(a: string, b: string, c: string, d: string)
    requires AllDigits(a) && AllDigits(b) && AllDigits(c) && AllDigits(d)
    ensures DigitsOf(a + "." + b + "." + c) == a + b + c
    ensures DigitsOf(CpfMask(a, b, c, d)) == a + b + c + d
  {
    var s1 := a + ".";
    var s2 := s1 + b;
    var s3 := s2 + ".";
    var s4 := s3 + c;
    var s5 := s4 + "-";
    assert DigitsOf(".") == "";
    assert DigitsOf("-") == "";
    DigitsOfDigits(a);
    AppendPunct(a, ".");
    AppendDigits(s1, b);
    AppendPunct(s2, ".");
    AppendDigits(s3, c);
    AppendPunct(s4, "-");
    AppendDigits(s5, d);
  }

  /** The mask adds only '.' and '-' to its digit groups. */
  lemma CpfMaskChars(a: string, b: string, c: string, d: string)
    requires AllDigits(a) && AllDigits(b) && AllDigits(c) && AllDigits(d)
    ensures AllOf(a + "." + b + "." + c, CpfChar)
    ensures AllOf(CpfMask(a, b, c, d), CpfChar)
  {
    var s1 := a + ".";
    var s2 := s1 + b;
    var s3 := s2 + ".";
    var s4 := s3 + c;
    var s5 := s4 + "-";
    assert AllOf(".", CpfChar) && AllOf("-", CpfChar);
    assert AllOf(a, CpfChar) && AllOf(b, CpfChar) && AllOf(c, CpfChar) && AllOf(d, CpfChar);
    AllOfAppend(a, ".", CpfChar);
    AllOfAppend(s1, b, CpfChar);
    AllOfAppend(s2, ".", CpfChar);
    AllOfAppend(s3, c, CpfChar);
    AllOfAppend(s4, "-", CpfChar);
    AllOfAppend(s5, d, CpfChar);
  }

  /** `formatCPF`: "ddd.ddd.ddd-dd" up to 11 digits; the text itself beyond. */
  function FormatCpf(value: string): (r: string)
    ensures value == "" ==> r == ""
    ensures var n := DigitsOf(value);
            (value != "" && |n| < 9 ==> r == n)
            && (|n| == 9 ==> r == n[..3] + "." + n[3..6] + "." + n[6..9])
            && (9 < |n| <= 11 ==> r == CpfMask(n[..3], n[3..6], n[6..9], n[9..]))
            && (|n| > 11 ==> r == value)
  {
    if value == "" then ""
    else
      var n := DigitsOf(value);
      if |n| <= 11 then
        if |n| >= 9 then
          var m := CpfMask(n[..3], n[3..6], n[6..9], n[9..]);
          assert |n| == 9 ==> m[..|m| - 1] == n[..3] + "." + n[3..6] + "." + n[6..9];
          DropTrailing(m, {'-', '.'})
        else DropTrailing(n, {'-', '.'})
      else value
  }

  /** Up to 11 digits the CPF mask keeps the digits in order and inserts only '.' and '-'. */
  lemma FormatCpfDigits(value: string)
    requires |DigitsOf(value)| <= 11
    ensures DigitsOf(FormatCpf(value)) == DigitsOf(value)
    ensures AllOf(FormatCpf(value), CpfChar)
  {
    var n := DigitsOf(value);
    if value != "" {
      if |n| < 9 {
        DigitsOfDigits(n);
      } else {
        CpfGrouped(n, FormatCpf(value));
      }
    }
  }

  /** The grouped form of 9 to 11 digits. */
  lemma CpfGrouped(n: string, r: string)
    requires AllDigits(n) && 9 <= |n| <= 11
    requires |n| == 9 ==> r == n[..3] + "." + n[3..6] + "." + n[6..9]
    requires |n| > 9 ==> r == CpfMask(n[..3], n[3..6], n[6..9], n[9..])
    ensures DigitsOf(r) == n && AllOf(r, CpfChar)
  {
    var a, b, c, d := n[..3], n[3..6], n[6..9], n[9..];
    CpfMaskDigits(a, b, c, d);
    CpfMaskChars(a, b, c, d);
    if |n| == 9 {
      assert a + b + c == n;
    } else {
      assert a + b + c + d == n;
    }
  }

  /** `formatPhoneDisplay`: '-' for an empty value. */
  function FormatPhoneDisplay(value: string): (r: string)
    ensures value == "" ==> r == "-"
    ensures value != "" ==> r == FormatPhone(value)
  {
    if value == "" then "-" else FormatPhone(value)
  }

  /** `formatCPFDisplay`: '-' for an empty value. */
  function FormatCpfDisplay(value: string): (r: string)
    ensures value == "" ==> r == "-"
    ensures value != "" ==> r == FormatCpf(value)
  {
    if value == "" then "-" else FormatCpf(value)
  }

  // ---------------------------------------------------------------------------
  // The user list

  /** A user record as the backend sends it; missing text fields are None. */
  datatype User = User(name: Option<string>, email: Option<string>, phone: Option<string>,
                       role: Option<string>, isActive: JsVal)

  /** A user after `normalizedUsers`: the record plus its phone text, profile and status. */
  datatype NormalUser = NormalUser(user: User, phone: string, profile: string, status: string)

  /** One element of `normalizedUsers`' map. */
  function Normalize(u: User): (n: NormalUser)
    ensures n.user == u
    ensures n.phone == (if u.phone.Some? then u.phone.value else "")
    ensures n.profile == "admin" <==> u.role == Some("admin")
    ensures n.profile == "admin" || n.profile == "user"
    ensures n.status == "inactive" <==> u.isActive == Bool(false)
    ensures n.status == "active" || n.status == "inactive"
  {
    NormalUser(u, if u.phone.Some? && u.phone.value != "" then u.phone.value else "",
               if u.role == Some("admin") then "admin" else "user",
               if StrictEq(u.isActive, Bool(false)) then "inactive" else "active")
  }

  /** The records that are objects: `filter(user => user && typeof user === 'object')`. */
  function Present(users: seq<Option<User>>): (r: seq<User>)
    ensures |r| <= |users|
    ensures forall k :: 0 <= k < |r| ==> Some(r[k]) in users
    ensures forall k :: 0 <= k < |users| && users[k].Some? ==> users[k].value in r
  {
    if users == [] then []
    else (if users[0].Some? then [users[0].value] else []) + Present(users[1..])
  }

  /** `normalizedUsers`: [] when the data is not an array, else the present records normalised. */
  function NormalizedUsers(users: Option<seq<Option<User>>>): (r: seq<NormalUser>)
    ensures users.None? ==> r == []
    ensures users.Some? ==> |r| == |Present(users.value)|
                            && forall k :: 0 <= k < |r| ==> r[k] == Normalize(Present(users.value)[k])
  {
    if users.None? then [] else Map(Present(users.value), Normalize)
  }

  /** The counters at the top of the page. */
  datatype Stats = Stats(total: nat, active: nat, inactive: nat, admins: nat)

  /** Counted active: `isActive !== false && isActive !== null`. */
  predicate CountedActive(u: NormalUser) {
    !StrictEq(u.user.isActive, Bool(false)) && !StrictEq(u.user.isActive, Null)
  }

  /** Counted inactive: `isActive === false || isActive === null`. */
  predicate CountedInactive(u: NormalUser) {
    StrictEq(u.user.isActive, Bool(false)) || StrictEq(u.user.isActive, Null)
  }

  predicate IsAdminProfile(u: NormalUser) {
    u.profile == "admin"
  }

  /** `stats`: every user is counted either active or inactive, never both. */
  function ComputeStats(users: seq<NormalUser>): (st: Stats)
    ensures st.total == |users|
    ensures st.active + st.inactive == st.total
    ensures st.active == |Filter(users, CountedActive)| && st.inactive == |Filter(users, CountedInactive)|
    ensures st.admins == |Filter(users, IsAdminProfile)| && st.admins <= st.total
  {
    FilterSplitsCount(users, CountedActive, CountedInactive);
    Stats(|users|, |Filter(users, CountedActive)|, |Filter(users, CountedInactive)|,
          |Filter(users, IsAdminProfile)|)
  }

  /**
   * The counters and the status disagree on a null flag: such a user is shown with
   * status 'active' but counted inactive.
   */
  lemma NullFlagShownActiveCountedInactive(u: User)
    requires u.isActive == Null
    ensures Normalize(u).status == "active"
    ensures CountedInactive(Normalize(u)) && !CountedActive(Normalize(u))
  {
  }

  /** The text a field is searched in: `field?.toLowerCase() || ''`. */
  function SearchText(field: Option<string>): string {
    if field.Some? then LowerStr(field.value) else ""
  }

  /** The search test: the lowercased name, email or phone contains the query. */
  function Matcher(query: string): NormalUser -> bool {
    (u: NormalUser) => Includes(SearchText(u.user.name), query) || Includes(SearchText(u.user.email), query)
                       || Includes(LowerStr(u.phone), query)
  }

  /** `filteredUsers`: everyone for a blank query, else the users matching the lowercased trimmed query. */
  function FilterUsers(users: seq<NormalUser>, searchQuery: string): (r: seq<NormalUser>)
    ensures IsBlank(searchQuery) ==> r == users
    ensures |r| <= |users| && forall k :: 0 <= k < |r| ==> r[k] in users
    ensures !IsBlank(searchQuery) ==>
              (forall k :: 0 <= k < |r| ==> Matcher(Trim(LowerStr(searchQuery)))(r[k]))
              && (forall k :: 0 <= k < |users| && Matcher(Trim(LowerStr(searchQuery)))(users[k]) ==> users[k] in r)
  {
    if IsBlank(searchQuery) then users
    else Filter(users, Matcher(Trim(LowerStr(searchQuery))))
  }

  /** The search result keeps the list's order. */
  lemma FilterUsersIsSubseq(users: seq<NormalUser>, searchQuery: string)
    ensures IsSubseq(FilterUsers(users, searchQuery), users)
  {
    if IsBlank(searchQuery) {
      SubseqRefl(users);
    } else {
      FilterIsSubseq(users, Matcher(Trim(LowerStr(searchQuery))));
    }
  }

  // ---------------------------------------------------------------------------
  // The create/edit form

  datatype UserForm = UserForm(name: string, email: string, password: string, phone: string,
                               cpf: string, street: string, number: string, city: string)

  /** The keys of the error object. */
  datatype Field = NameField | EmailField | PasswordField | PhoneField | CpfField
                 | StreetField | NumberField | CityField

  /** The keys the validator can report. */
  const UserFormKeys: set<Field> :=
    {NameField, EmailField, PasswordField, PhoneField, CpfField, StreetField, NumberField, CityField}

  /** The error a field gets, if any; password and the contact fields are checked only on create. */
  function UserFieldError(form: UserForm, isEditMode: bool, key: Field): Option<string> {
    match key
    case NameField => Required(form.name, "Nome é obrigatório")
    case EmailField => EmailError(form.email)
    case PasswordField => if isEditMode then None else PasswordError(form.password)
    case PhoneField => if isEditMode then None else Required(form.phone, "Telefone é obrigatório")
    case CpfField => if isEditMode then None else Required(form.cpf, "CPF é obrigatório")
    case StreetField => if isEditMode then None else Required(form.street, "Rua é obrigatória")
    case NumberField => if isEditMode then None else Required(form.number, "Número é obrigatório")
    case CityField => if isEditMode then None else Required(form.city, "Cidade é obrigatória")
  }

  /** The position of a field in the order the page checks them. */
  function Rank(k: Field): (n: nat)
    ensures n < 8
  {
    match k
    case NameField => 0
    case EmailField => 1
    case PasswordField => 2
    case PhoneField => 3
    case CpfField => 4
    case StreetField => 5
    case NumberField => 6
    case CityField => 7
  }

  /** m holds exactly the errors of the fields ranked below n. */
  ghost predicate ErrorsOfFirst(m: map<Field, string>, form: UserForm, isEditMode: bool, n: nat) {
    forall k ::
      (k in m <==> Rank(k) < n && UserFieldError(form, isEditMode, k).Some?)
      && (k in m ==> m[k] == UserFieldError(form, isEditMode, k).value)
  }

  /** Checking the next field in order extends the map by exactly that field's error. */
  lemma PutNext(m: map<Field, string>, form: UserForm, isEditMode: bool, key: Field)
    requires ErrorsOfFirst(m, form, isEditMode, Rank(key))
    ensures ErrorsOfFirst(Put(m, key, UserFieldError(form, isEditMode, key)), form, isEditMode, Rank(key) + 1)
  {
    var m' := Put(m, key, UserFieldError(form, isEditMode, key));
    forall k
      ensures (k in m' <==> Rank(k) < Rank(key) + 1 && UserFieldError(form, isEditMode, k).Some?)
              && (k in m' ==> m'[k] == UserFieldError(form, isEditMode, k).value)
    {
      if k != key {
        assert Rank(k) != Rank(key);
      }
    }
  }

  /** `validateForm`: fills the error map field by field and reports whether it stayed empty. */
  method ValidateUserForm(form: UserForm, isEditMode: bool) returns (errors: map<Field, string>, valid: bool)
    ensures forall k :: k in errors <==> UserFieldError(form, isEditMode, k).Some?
    ensures forall k :: k in errors ==> errors[k] == UserFieldError(form, isEditMode, k).value
    ensures valid <==> forall k :: k in UserFormKeys ==> UserFieldError(form, isEditMode, k).None?
  {
    errors := map[];
    errors := Put(errors, NameField, Required(form.name, "Nome é obrigatório"));
    PutNext(map[], form, isEditMode, NameField);
    ghost var e1 := errors;
    errors := Put(errors, EmailField, EmailError(form.email));
    PutNext(e1, form, isEditMode, EmailField);
    if !isEditMode {
      ghost var e2 := errors;
      errors := Put(errors, PasswordField, PasswordError(form.password));
      PutNext(e2, form, isEditMode, PasswordField);
      ghost var e3 := errors;
      errors := Put(errors, PhoneField, Required(form.phone, "Telefone é obrigatório"));
      PutNext(e3, form, isEditMode, PhoneField);
      ghost var e4 := errors;
      errors := Put(errors, CpfField, Required(form.cpf, "CPF é obrigatório"));
      PutNext(e4, form, isEditMode, CpfField);
      ghost var e5 := errors;
      errors := Put(errors, StreetField, Required(form.street, "Rua é obrigatória"));
      PutNext(e5, form, isEditMode, StreetField);
      ghost var e6 := errors;
      errors := Put(errors, NumberField, Required(form.number, "Número é obrigatório"));
      PutNext(e6, form, isEditMode, NumberField);
      ghost var e7 := errors;
      errors := Put(errors, CityField, Required(form.city, "Cidade é obrigatória"));
      PutNext(e7, form, isEditMode, CityField);
    } else {
      EditModeChecksOnlyNameAndEmail(form);
    }
    KeysOfUserErrors(form, isEditMode);
    valid := |errors| == 0;
    if valid {
      assert forall k :: k !in errors;
    } else {
      assert errors != map[];
    }
  }

  /** Only the form's own keys can carry an error. */
  lemma KeysOfUserErrors(form: UserForm, isEditMode: bool)
    ensures forall k :: UserFieldError(form, isEditMode, k).Some? ==> k in UserFormKeys
  {
  }

  /** In edit mode only the name and the email are checked. */
  lemma EditModeChecksOnlyNameAndEmail(form: UserForm)
    ensures forall key :: key != NameField && key != EmailField ==> UserFieldError(form, true, key).None?
  {
  }

  /** On create a non-blank password shorter than 6 characters is rejected. */
  lemma CreateRejectsShortPassword(form: UserForm)
    requires !IsBlank(form.password) && |form.password| < 6
    ensures UserFieldError(form, false, PasswordField) == Some("Senha deve ter no mínimo 6 caracteres")
  {
  }
}
