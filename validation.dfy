/**
 * The app's form validation and sanitisation: field validators that return the first
 * failing rule's message (or nothing), form validators that collect those messages by
 * field, and the e-mail and name sanitisers. The regular expressions of the validation
 * rules are written out as predicates over the characters they accept.
 */
module Validation {
  import opened Wrappers
  import opened Seqs
  import opened Text

  const EmailRequired: string := "Email é obrigatório"
  const EmailInvalid: string := "Email inválido"
  const SenhaRequired: string := "Senha é obrigatória"
  const SenhaMinLength: nat := 6
  const SenhaTooShort: string := "Senha deve ter no mínimo 6 caracteres"
  const SenhaWeak: string := "Senha deve conter ao menos 6 caracteres, uma maiúscula, uma minúscula e um número"
  const NomeRequired: string := "Nome é obrigatório"
  const NomeMinLength: nat := 3
  const NomeMaxLength: nat := 50
  const NomeLength: string := "Nome deve ter entre 3 e 50 caracteres e conter apenas letras"
  const NomeInvalidChars: string := "Nome contém caracteres inválidos"
  const ConfirmacaoRequired: string := "Confirmação de senha é obrigatória"
  const SenhasDiferentes: string := "As senhas não coincidem"

  // ---------------------------------------------------------------------------
  // E-mail: /^[^\s@]+@[^\s@]+\.[^\s@]+$/
  // ---------------------------------------------------------------------------

  /** The class `[^\s@]`. */
  predicate EmailChar(c: char) {
    !IsWhitespace(c) && c != '@'
  }

  /** The e-mail pattern: one `@` at index `i` after a non-empty local part, a `.` at index `j`
      with at least one character on each side inside the domain, and every other character
      neither white space nor `@`. */
  predicate MatchesEmailPattern(s: string) {
    exists i, j :: 0 < i && i + 1 < j && j + 1 < |s| && s[i] == '@' && s[j] == '.'
                   && forall k :: 0 <= k < |s| && k != i ==> EmailChar(s[k])
  }

  /** Every string built as local part, `@`, first domain part, `.`, domain rest (each non-empty,
      without white space or `@`) matches the pattern. */
  lemma {:induction false} EmailPatternAccepts(local: string, domain: string, rest: string)
    requires |local| > 0 && |domain| > 0 && |rest| > 0
    requires forall k :: 0 <= k < |local| ==> EmailChar(local[k])
    requires forall k :: 0 <= k < |domain| ==> EmailChar(domain[k])
    requires forall k :: 0 <= k < |rest| ==> EmailChar(rest[k])
    ensures MatchesEmailPattern(local + "@" + domain + "." + rest)
  {
    var s := local + "@" + domain + "." + rest;
    var i, j := |local|, |local| + 1 + |domain|;
    forall k | 0 <= k < |s| && k != i ensures EmailChar(s[k]) {
      if k < i { assert s[k] == local[k]; }
      else if k < j { assert s[k] == domain[k - i - 1]; }
      else if k > j { assert s[k] == rest[k - j - 1]; }
    }
    assert s[i] == '@' && s[j] == '.';
  }

  /** A matching address has exactly one `@` and no white space. */
  lemma {:induction false} EmailPatternShape(s: string)
    requires MatchesEmailPattern(s)
    ensures exists i :: 0 < i < |s| && s[i] == '@' && forall k :: 0 <= k < |s| && s[k] == '@' ==> k == i
    ensures forall k :: 0 <= k < |s| ==> !IsWhitespace(s[k])
  {
    var i, j :| 0 < i && i + 1 < j && j + 1 < |s| && s[i] == '@' && s[j] == '.'
                && forall k :: 0 <= k < |s| && k != i ==> EmailChar(s[k]);
    assert 0 < i < |s| && s[i] == '@';
  }

  lemma {:induction false} EmailMatchIsNotBlank(s: string)
    ensures MatchesEmailPattern(s) ==> !AllWhitespace(s)
  {
    if MatchesEmailPattern(s) {
      EmailPatternShape(s);
      assert !IsWhitespace(s[0]);
    }
  }

  /** `validateEmail`: "required" for a blank string, "invalid" for one that does not match the
      pattern (tested on the untrimmed text), nothing otherwise. */
  function ValidateEmail(email: string): (r: Option<string>)
    ensures r.None? <==> MatchesEmailPattern(email)
    ensures r == Some(EmailRequired) <==> AllWhitespace(email)
    ensures r == Some(EmailInvalid) <==> !AllWhitespace(email) && !MatchesEmailPattern(email)
  {
    TrimEmptyIffBlank(email);
    EmailMatchIsNotBlank(email);
    if Trim(email) == "" then Some(EmailRequired)
    else if !MatchesEmailPattern(email) then Some(EmailInvalid)
    else None
  }

  // ---------------------------------------------------------------------------
  // Password: /^(?=.*[a-z])(?=.*[A-Z])(?=.*\d).{6,}$/
  // ---------------------------------------------------------------------------

  predicate IsAsciiLower(c: char) { 'a' <= c <= 'z' }
  predicate IsAsciiUpper(c: char) { 'A' <= c <= 'Z' }

  /** The lookahead `(?=.*X)` at the start: some character of class X is preceded only by
      characters that `.` matches. */
  predicate LookaheadLower(s: string) {
    exists k :: 0 <= k < |s| && IsAsciiLower(s[k]) && forall j :: 0 <= j < k ==> !IsLineTerminator(s[j])
  }
  predicate LookaheadUpper(s: string) {
    exists k :: 0 <= k < |s| && IsAsciiUpper(s[k]) && forall j :: 0 <= j < k ==> !IsLineTerminator(s[j])
  }
  predicate LookaheadDigit(s: string) {
    exists k :: 0 <= k < |s| && IsDigit(s[k]) && forall j :: 0 <= j < k ==> !IsLineTerminator(s[j])
  }

  /** The password pattern read literally: the three lookaheads, then `.{6,}$`. */
  predicate MatchesSenhaPattern(s: string) {
    LookaheadLower(s) && LookaheadUpper(s) && LookaheadDigit(s)
    && Utf16Length(s) >= 6 && forall k :: 0 <= k < |s| ==> !IsLineTerminator(s[k])
  }

  /** The rule as the password screen states it: at least 6 characters, no line break, and a
      lower-case letter, an upper-case letter and a digit somewhere. */
  predicate StrongSenha(s: string) {
    Utf16Length(s) >= SenhaMinLength && (forall k :: 0 <= k < |s| ==> !IsLineTerminator(s[k]))
    && (exists k :: 0 <= k < |s| && IsAsciiLower(s[k]))
    && (exists k :: 0 <= k < |s| && IsAsciiUpper(s[k]))
    && (exists k :: 0 <= k < |s| && IsDigit(s[k]))
  }

  /** Once `.{6,}$` has ruled out line terminators, each lookahead only asks for one character. */
  lemma {:induction false} SenhaPatternIsStrong(s: string)
    ensures MatchesSenhaPattern(s) <==> StrongSenha(s)
  {
    if StrongSenha(s) {
      var a :| 0 <= a < |s| && IsAsciiLower(s[a]);
      var b :| 0 <= b < |s| && IsAsciiUpper(s[b]);
      var c :| 0 <= c < |s| && IsDigit(s[c]);
      assert forall j :: 0 <= j < a ==> !IsLineTerminator(s[j]);
      assert forall j :: 0 <= j < b ==> !IsLineTerminator(s[j]);
      assert forall j :: 0 <= j < c ==> !IsLineTerminator(s[j]);
    }
  }

  /** `validateSenha`: "required" for the empty string, the length message below 6 UTF-16 units,
      the strength message when the pattern fails, nothing otherwise. */
  function ValidateSenha(senha: string): (r: Option<string>)
    ensures r.None? <==> MatchesSenhaPattern(senha)
    ensures r == Some(SenhaRequired) <==> senha == ""
    ensures r == Some(SenhaTooShort) <==> senha != "" && Utf16Length(senha) < SenhaMinLength
    ensures r == Some(SenhaWeak) <==> Utf16Length(senha) >= SenhaMinLength && !MatchesSenhaPattern(senha)
  {
    SenhaPatternIsStrong(senha);
    if senha == "" then Some(SenhaRequired)
    else if Utf16Length(senha) < SenhaMinLength then Some(SenhaTooShort)
    else if !StrongSenha(senha) then Some(SenhaWeak)
    else None
  }

  /** Lengths are UTF-16 code units: two emoji after `Ab1` make seven units, enough for the
      six the rule asks for, though the text has only five characters. */
  lemma {:induction false} AstralCharactersCountTwice(senha: string)
    requires senha == "Ab1\U{1F600}\U{1F600}"
    ensures |senha| == 5 && ValidateSenha(senha).None?
  {
    assert |senha| == 5 && !IsAstral(senha[0]) && !IsAstral(senha[1]) && !IsAstral(senha[2]);
    Utf16LengthOfAstral(senha, 3);
    assert Utf16UnitsFrom(senha, 2) == 5;
    assert Utf16UnitsFrom(senha, 1) == 6;
    assert Utf16Length(senha) == 7;
    assert IsAsciiLower(senha[1]) && IsAsciiUpper(senha[0]) && IsDigit(senha[2]);
    SenhaPatternIsStrong(senha);
  }

  // ---------------------------------------------------------------------------
  // Name: /^[a-zA-ZÀ-ÿ\s]+$/
  // ---------------------------------------------------------------------------

  /** The class `[a-zA-ZÀ-ÿ\s]`: ASCII letters, U+00C0 to U+00FF, white space. */
  predicate NomeChar(c: char) {
    IsAsciiLower(c) || IsAsciiUpper(c) || ('\U{C0}' <= c <= '\U{FF}') || IsWhitespace(c)
  }

  predicate MatchesNomePattern(s: string) {
    |s| > 0 && forall k :: 0 <= k < |s| ==> NomeChar(s[k])
  }

  /** `validateNome`: "required" for a blank string, the range message when the untrimmed length
      in UTF-16 units is outside 3..50, the character message when the pattern fails, nothing otherwise. */
  function ValidateNome(nome: string): (r: Option<string>)
    ensures r.None? <==>
              !AllWhitespace(nome) && NomeMinLength <= Utf16Length(nome) <= NomeMaxLength && MatchesNomePattern(nome)
    ensures r == Some(NomeRequired) <==> AllWhitespace(nome)
    ensures r == Some(NomeLength) <==>
              !AllWhitespace(nome) && (Utf16Length(nome) < NomeMinLength || Utf16Length(nome) > NomeMaxLength)
    ensures r == Some(NomeInvalidChars) <==>
              !AllWhitespace(nome) && NomeMinLength <= Utf16Length(nome) <= NomeMaxLength && !MatchesNomePattern(nome)
  {
    TrimEmptyIffBlank(nome);
    if Trim(nome) == "" then Some(NomeRequired)
    else if Utf16Length(nome) < NomeMinLength || Utf16Length(nome) > NomeMaxLength then Some(NomeLength)
    else if !MatchesNomePattern(nome) then Some(NomeInvalidChars)
    else None
  }

  /** `validateConfirmacaoSenha`. */
  function ValidateConfirmacaoSenha(senha: string, confirmacao: string): (r: Option<string>)
    ensures r.None? <==> confirmacao != "" && senha == confirmacao
    ensures r == Some(ConfirmacaoRequired) <==> confirmacao == ""
    ensures r == Some(SenhasDiferentes) <==> confirmacao != "" && senha != confirmacao
  {
    if confirmacao == "" then Some(ConfirmacaoRequired)
    else if senha != confirmacao then Some(SenhasDiferentes)
    else None
  }

  // ---------------------------------------------------------------------------
  // Form validators
  // ---------------------------------------------------------------------------

  datatype Field = Nome | Email | Senha | ConfirmacaoSenha

  /** The errors object: one message per failing field. */
  type FormErrors = map<Field, string>

  /** Adds the field's message when its validator returned one. */
  function WithError(errors: FormErrors, f: Field, e: Option<string>): (r: FormErrors)
    ensures f in r <==> f in errors || e.Some?
    ensures e.Some? ==> r[f] == e.value
    ensures e.None? ==> r == errors
    ensures forall g :: g != f ==> (g in r <==> g in errors) && (g in errors ==> r[g] == errors[g])
  {
    if e.Some? then errors[f := e.value] else errors
  }

  /** `validateLoginForm`: an entry for exactly the failing fields, with their messages. */
  function ValidateLoginForm(email: string, senha: string): (errors: FormErrors)
    ensures errors.Keys <= {Email, Senha}
    ensures Email in errors <==> ValidateEmail(email).Some?
    ensures Email in errors ==> errors[Email] == ValidateEmail(email).value
    ensures Senha in errors <==> ValidateSenha(senha).Some?
    ensures Senha in errors ==> errors[Senha] == ValidateSenha(senha).value
  {
    CollectLoginErrors(ValidateEmail(email), ValidateSenha(senha))
  }

  /** The login form's errors object, filled field by field. */
  function CollectLoginErrors(emailError: Option<string>, senhaError: Option<string>): (errors: FormErrors)
    ensures errors.Keys <= {Email, Senha}
    ensures Email in errors <==> emailError.Some?
    ensures Email in errors ==> errors[Email] == emailError.value
    ensures Senha in errors <==> senhaError.Some?
    ensures Senha in errors ==> errors[Senha] == senhaError.value
  {
    WithError(WithError(map[], Email, emailError), Senha, senhaError)
  }

  /** The sign-up form's errors object, filled field by field. */
  function CollectErrors(nomeError: Option<string>, emailError: Option<string>, senhaError: Option<string>,
                         confirmacaoError: Option<string>): (errors: FormErrors)
    ensures Nome in errors <==> nomeError.Some?
    ensures Nome in errors ==> errors[Nome] == nomeError.value
    ensures Email in errors <==> emailError.Some?
    ensures Email in errors ==> errors[Email] == emailError.value
    ensures Senha in errors <==> senhaError.Some?
    ensures Senha in errors ==> errors[Senha] == senhaError.value
    ensures ConfirmacaoSenha in errors <==> confirmacaoError.Some?
    ensures ConfirmacaoSenha in errors ==> errors[ConfirmacaoSenha] == confirmacaoError.value
  {
    var e1 := WithError(map[], Nome, nomeError);
    var e2 := WithError(e1, Email, emailError);
    var e3 := WithError(e2, Senha, senhaError);
    WithError(e3, ConfirmacaoSenha, confirmacaoError)
  }

  /** `validateCadastroForm`: an entry for exactly the failing fields, with their messages; the
      confirmation is compared with the password as typed. */
  function ValidateCadastroForm(nome: string, email: string, senha: string, confirmacao: string): (errors: FormErrors)
    ensures Nome in errors <==> ValidateNome(nome).Some?
    ensures Nome in errors ==> errors[Nome] == ValidateNome(nome).value
    ensures Email in errors <==> ValidateEmail(email).Some?
    ensures Email in errors ==> errors[Email] == ValidateEmail(email).value
    ensures Senha in errors <==> ValidateSenha(senha).Some?
    ensures Senha in errors ==> errors[Senha] == ValidateSenha(senha).value
    ensures ConfirmacaoSenha in errors <==> ValidateConfirmacaoSenha(senha, confirmacao).Some?
    ensures ConfirmacaoSenha in errors ==> errors[ConfirmacaoSenha] == ValidateConfirmacaoSenha(senha, confirmacao).value
  {
    CollectErrors(ValidateNome(nome), ValidateEmail(email), ValidateSenha(senha),
                  ValidateConfirmacaoSenha(senha, confirmacao))
  }

  /** A sign-up form with no errors has a well-formed address, a strong password typed twice
      and a name of 3 to 50 letters and spaces. */
  lemma {:induction false} CleanCadastroForm(nome: string, email: string, senha: string, confirmacao: string)
    requires ValidateCadastroForm(nome, email, senha, confirmacao) == map[]
    ensures MatchesEmailPattern(email) && StrongSenha(senha) && senha == confirmacao
    ensures NomeMinLength <= Utf16Length(nome) <= NomeMaxLength && MatchesNomePattern(nome)
  {
    var errors := ValidateCadastroForm(nome, email, senha, confirmacao);
    assert Email !in errors && Senha !in errors && Nome !in errors && ConfirmacaoSenha !in errors;
    SenhaPatternIsStrong(senha);
  }

  // ---------------------------------------------------------------------------
  // Sanitisation
  // ---------------------------------------------------------------------------

  /** `sanitizeEmail`: trimmed, then lower-cased. */
  function SanitizeEmail(email: string): (r: string)
    ensures |r| == |Trim(email)|
    ensures forall k :: 0 <= k < |r| ==> r[k] == LowerChar(Trim(email)[k])
    ensures NoEdgeWhitespace(r)
    ensures ToLower(r) == r
  {
    var t := Trim(email);
    ToLowerIdempotent(t);
    if t == [] then ToLower(t)
    else
      LowerCharKeepsWhitespace(t[0]);
      LowerCharKeepsWhitespace(t[|t| - 1]);
      ToLower(t)
  }

  /** Sanitising an address twice changes nothing. */
  lemma {:induction false} SanitizeEmailIdempotent(email: string)
    ensures SanitizeEmail(SanitizeEmail(email)) == SanitizeEmail(email)
  {
    var r := SanitizeEmail(email);
    TrimFixed(r);
  }

  /** No two neighbouring characters are both white space. */
  predicate NoAdjacentWhitespace(s: string) {
    forall k :: 0 <= k < |s| - 1 ==> !(IsWhitespace(s[k]) && IsWhitespace(s[k + 1]))
  }

  /** The only white space is the plain space. */
  predicate OnlySpaces(s: string) {
    forall k :: 0 <= k < |s| ==> IsWhitespace(s[k]) ==> s[k] == ' '
  }

  /** `s.replace(/\s+/g, ' ')`: every maximal run of white space becomes one space. */
  function CollapseWhitespace(s: string): (r: string)
    ensures |r| <= |s| && (|r| == 0 <==> |s| == 0)
    ensures |s| > 0 ==> r[0] == (if IsWhitespace(s[0]) then ' ' else s[0])
    ensures |s| > 0 && !IsWhitespace(s[|s| - 1]) ==> r[|r| - 1] == s[|s| - 1]
    ensures NoAdjacentWhitespace(r) && OnlySpaces(r)
    decreases |s|
  {
    if s == [] then []
    else if IsWhitespace(s[0]) then
      var t := TrimStart(s);
      var rest := CollapseWhitespace(t);
      assert |t| > 0 ==> t[|t| - 1] == s[|s| - 1];
      [' '] + rest
    else
      var rest := CollapseWhitespace(s[1..]);
      [s[0]] + rest
  }

  /** A string already in collapsed form is left alone. */
  lemma {:induction false} CollapseFixed(s: string)
    requires NoAdjacentWhitespace(s) && OnlySpaces(s)
    ensures CollapseWhitespace(s) == s
    decreases |s|
  {
    if s != [] {
      var tail := s[1..];
      assert NoAdjacentWhitespace(tail) && OnlySpaces(tail) by {
        forall k | 0 <= k < |tail| - 1 ensures !(IsWhitespace(tail[k]) && IsWhitespace(tail[k + 1])) {
          assert tail[k] == s[k + 1] && tail[k + 1] == s[k + 2];
        }
      }
      CollapseFixed(tail);
      assert s == [s[0]] + tail;
      if IsWhitespace(s[0]) {
        assert s[0] == ' ';
        assert |tail| > 0 ==> !IsWhitespace(tail[0]);
        TrimStartFixed(tail);
        assert TrimStart(s) == tail;
        assert CollapseWhitespace(s) == [' '] + CollapseWhitespace(tail);
      } else {
        assert CollapseWhitespace(s) == [s[0]] + CollapseWhitespace(tail);
      }
    }
  }

  /** Text that ends visible collapses on its own: what follows it collapses separately. */
  lemma {:induction false} CollapseAfterVisible(a: string, c: string)
    requires |a| > 0 && !IsWhitespace(a[|a| - 1])
    ensures CollapseWhitespace(a + c) == CollapseWhitespace(a) + CollapseWhitespace(c)
    decreases |a|
  {
    var x := a + c;
    assert x[0] == a[0];
    if IsWhitespace(a[0]) {
      var t := TrimStart(a);
      TrimStartBeforeVisible(a, c);
      assert |t| > 0 && t[|t| - 1] == a[|a| - 1];
      CollapseAfterVisible(t, c);
      SeqAssoc([' '], CollapseWhitespace(t), CollapseWhitespace(c));
    } else if |a| == 1 {
      assert x[1..] == c;
    } else {
      assert x[1..] == a[1..] + c;
      CollapseAfterVisible(a[1..], c);
      SeqAssoc([a[0]], CollapseWhitespace(a[1..]), CollapseWhitespace(c));
    }
  }

  /** A run of white space before visible text collapses to one space. */
  lemma {:induction false} CollapseLeadingRun(w: string, b: string)
    requires |w| > 0 && AllWhitespace(w)
    requires |b| > 0 && !IsWhitespace(b[0])
    ensures CollapseWhitespace(w + b) == " " + CollapseWhitespace(b)
  {
    assert (w + b)[0] == w[0];
    TrimStartAfterWhitespace(w, b);
    TrimStartFixed(b);
  }

  /** A run of white space between two visible characters becomes exactly one space, and
      the text on either side collapses on its own. */
  lemma {:induction false} CollapseBetweenVisible(a: string, w: string, b: string)
    requires |a| > 0 && !IsWhitespace(a[|a| - 1])
    requires |w| > 0 && AllWhitespace(w)
    requires |b| > 0 && !IsWhitespace(b[0])
    ensures CollapseWhitespace(a + w + b) == CollapseWhitespace(a) + " " + CollapseWhitespace(b)
  {
    SeqAssoc(a, w, b);
    CollapseAfterVisible(a, w + b);
    CollapseLeadingRun(w, b);
    SeqAssoc(CollapseWhitespace(a), " ", CollapseWhitespace(b));
  }

  /** The characters that are not white space, in order. */
  function Visible(s: string): (r: string)
    ensures forall k :: 0 <= k < |r| ==> !IsWhitespace(r[k])
  {
    if s == [] then [] else (if IsWhitespace(s[0]) then [] else [s[0]]) + Visible(s[1..])
  }

  lemma {:induction false} VisibleConcat(a: string, b: string)
    ensures Visible(a + b) == Visible(a) + Visible(b)
  {
    if a == [] {
      assert a + b == b;
    } else {
      assert (a + b)[0] == a[0];
      assert (a + b)[1..] == a[1..] + b;
      VisibleConcat(a[1..], b);
    }
  }

  lemma {:induction false} VisibleOfBlank(s: string)
    requires AllWhitespace(s)
    ensures Visible(s) == []
  {
    if s != [] {
      VisibleOfBlank(s[1..]);
    }
  }

  /** Collapsing keeps every visible character, in order. */
  lemma {:induction false} CollapseKeepsVisible(s: string)
    ensures Visible(CollapseWhitespace(s)) == Visible(s)
    decreases |s|
  {
    if s != [] {
      if IsWhitespace(s[0]) {
        var t := TrimStart(s);
        CollapseKeepsVisible(t);
        assert Visible(s) == Visible(t) by {
          LeadingBlankInvisible(s);
        }
        assert Visible(CollapseWhitespace(s)) == Visible(CollapseWhitespace(t)) by {
          assert CollapseWhitespace(s) == [' '] + CollapseWhitespace(t);
          VisibleConcat([' '], CollapseWhitespace(t));
        }
      } else {
        CollapseKeepsVisible(s[1..]);
        assert Visible(CollapseWhitespace(s)) == [s[0]] + Visible(CollapseWhitespace(s[1..])) by {
          assert CollapseWhitespace(s) == [s[0]] + CollapseWhitespace(s[1..]);
          VisibleConcat([s[0]], CollapseWhitespace(s[1..]));
        }
      }
    }
  }

  /** The white space `TrimStart` removes has nothing visible in it. */
  lemma {:induction false} LeadingBlankInvisible(s: string)
    ensures Visible(s) == Visible(TrimStart(s))
  {
    var t := TrimStart(s);
    var gone := s[..|s| - |t|];
    assert s == gone + t;
    VisibleConcat(gone, t);
    VisibleOfBlank(gone);
  }

  /** `sanitizeNome`: trimmed, then every run of white space made one space. */
  function SanitizeNome(nome: string): (r: string)
    ensures NoEdgeWhitespace(r) && NoAdjacentWhitespace(r) && OnlySpaces(r)
  {
    CollapseWhitespace(Trim(nome))
  }

  /** Two names joined by white space sanitise to the two sanitised names joined by one space. */
  lemma {:induction false} SanitizeNomeJoins(a: string, w: string, b: string)
    requires |a| > 0 && !IsWhitespace(a[|a| - 1])
    requires |w| > 0 && AllWhitespace(w)
    requires |b| > 0 && !IsWhitespace(b[0])
    ensures SanitizeNome(a + w + b) == SanitizeNome(a) + " " + SanitizeNome(b)
  {
    var ta, tb := TrimStart(a), TrimEnd(b);
    assert |ta| > 0 && ta[|ta| - 1] == a[|a| - 1];
    assert tb[0] == b[0];
    SeqAssoc(a, w, b);
    TrimStartBeforeVisible(a, w + b);
    SeqAssoc(ta, w, b);
    TrimEndAfterVisible(ta + w, b);
    assert Trim(a + w + b) == ta + w + tb;
    CollapseBetweenVisible(ta, w, tb);
    TrimEndFixed(ta);
    TrimStartFixed(b);
  }

  /** Sanitising a name keeps its visible characters, in order. */
  lemma {:induction false} SanitizeNomeKeepsVisible(nome: string)
    ensures Visible(SanitizeNome(nome)) == Visible(nome)
  {
    TrimKeepsVisible(nome);
    CollapseKeepsVisible(Trim(nome));
  }

  /** Trimming only removes white space. */
  lemma {:induction false} TrimKeepsVisible(s: string)
    ensures Visible(Trim(s)) == Visible(s)
  {
    TrimInfix(s);
    VisibleOfPadded(s, Trim(s), |s| - |TrimStart(s)|);
  }

  /** Padding with white space adds nothing visible. */
  lemma {:induction false} VisibleOfPadded(s: string, t: string, i: int)
    requires BlankPadded(s, t, i)
    ensures Visible(t) == Visible(s)
  {
    var a, b := s[..i], s[i + |t|..];
    SplitInThree(s, i, i + |t|);
    VisibleConcat(a + t, b);
    VisibleConcat(a, t);
    VisibleOfBlank(a);
    VisibleOfBlank(b);
  }

  /** Sanitising a name twice changes nothing. */
  lemma {:induction false} SanitizeNomeIdempotent(nome: string)
    ensures SanitizeNome(SanitizeNome(nome)) == SanitizeNome(nome)
  {
    var r := SanitizeNome(nome);
    TrimFixed(r);
    CollapseFixed(r);
  }
}
