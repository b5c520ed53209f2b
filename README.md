# Naos.Example: equality helpers and the JOSE JWT format, in Dafny

This project models the two pieces of the Naos.Example web API that carry logic of
their own, and proves what their documentation promises.

- **Equality helpers** (`EqualityExtensions.dfy`, module `EqualityExtensions`). There
  are five null-aware comparisons: scalar equality, dictionary equality in an
  `IDictionary` and an `IReadOnlyDictionary` variant, ordered sequence equality,
  and unordered (multiset) equality. A nullable argument is an `Option`. The comparers
  are Dafny's `==`. The dictionary checks and the unordered check are methods with the
  source's loops. Each is proved equal to a specification predicate
  (`DictionaryEqual`, `UnorderedEqual`), and lemmas relate those predicates to map
  equality and to occurrence counts. The headline result is `IsUnorderedEqualTo`:
  greedily removing the first match from a private copy of the second list returns
  true exactly when both sequences have the same multiset.
- **JOSE JWT format** (`JoseJwtFormat.dfy`, module `JoseJwtFormat`, over the settings
  record of `JwtAuthenticationSettings.dfy`). This is a read-only relying-party
  adapter. `Protect` always fails with "not supported". `Unprotect` rejects blank
  text. When an RSA private key is present it first unwraps the JWE envelope
  (RFC 7516); otherwise it passes the text through unchanged. It then builds one
  symmetric-key issuer provider per allowed server, decoding each secret with
  base64url (section 5 of RFC 4648). Last, it returns the JWT library's verdict
  unchanged. The three library calls are fields of a `Libraries` value passed in,
  so every property holds for any decryption, decoding and validation functions.

The code throws exceptions and leaves every token check to the JWT library. The model
follows the code: blank text is an argument error, and every other outcome is whatever
the libraries return.

`Wrappers.dfy` holds `Option` (null) and `Result` (a value, or the exception thrown).

## Model

| member | source | states |
|---|---|---|
| EqualityExtensions.IsEqualTo | Naos.Example.Api.Console/.recipes/OBeautifulCode.Equality/EqualityExtensions.cs:39-59 | two nulls are equal; exactly one null is unequal; otherwise the comparer's verdict |
| EqualityExtensions.IsEqualToIsEquivalence | Naos.Example.Api.Console/.recipes/OBeautifulCode.Equality/EqualityExtensions.cs:44-58 | IsEqualTo is reflexive, symmetric and transitive, and holds exactly when the two nullable values are equal |
| EqualityExtensions.IsDictionaryEqualTo | Naos.Example.Api.Console/.recipes/OBeautifulCode.Equality/EqualityExtensions.cs:76-167 | the null guards, the key-count check and both key loops with early returns compute exactly DictionaryEqual: both null, or the same size and each key of either dictionary present in the other with an equal value |
| EqualityExtensions.IsReadOnlyDictionaryEqualTo | Naos.Example.Api.Console/.recipes/OBeautifulCode.Equality/EqualityExtensions.cs:184-275 | the read-only variant computes the same DictionaryEqual result, null cases and count check included |
| EqualityExtensions.DifferentCountsAreUnequal | Naos.Example.Api.Console/.recipes/OBeautifulCode.Equality/EqualityExtensions.cs:91-94 | dictionaries with different key counts are never equal |
| EqualityExtensions.KeysMatchBothWaysSameCount | Naos.Example.Api.Console/.recipes/OBeautifulCode.Equality/EqualityExtensions.cs:136-166 | when both directional passes succeed, the key counts already agree, so the count check only fails early |
| EqualityExtensions.DictionaryEqualIsMapEquality | Naos.Example.Api.Console/.recipes/OBeautifulCode.Equality/EqualityExtensions.cs:98-166 | dictionary equality holds exactly when the two nullable maps are equal, and it is symmetric in its arguments |
| EqualityExtensions.SequenceEqual | Naos.Example.Api.Console/.recipes/OBeautifulCode.Equality/EqualityExtensions.cs:307 | the pairwise walk is true iff the lengths agree and corresponding elements are equal |
| EqualityExtensions.IsSequenceEqualTo | Naos.Example.Api.Console/.recipes/OBeautifulCode.Equality/EqualityExtensions.cs:290-310 | both null gives true; one null gives false; otherwise true iff the lengths agree and corresponding elements are equal |
| EqualityExtensions.IsSequenceEqualToIsEquality | Naos.Example.Api.Console/.recipes/OBeautifulCode.Equality/EqualityExtensions.cs:284-289 | ordered equality holds exactly when the two nullable sequences are equal |
| EqualityExtensions.CountIsMultiplicity | Naos.Example.Api.Console/.recipes/OBeautifulCode.Equality/EqualityExtensions.cs:313-314 | the number of occurrences of an element equals its multiplicity in the sequence's multiset |
| EqualityExtensions.UnorderedEqualMeansSameCounts | Naos.Example.Api.Console/.recipes/OBeautifulCode.Equality/EqualityExtensions.cs:313-325 | unordered equality holds iff the lengths agree and every element occurs equally often in both sequences |
| EqualityExtensions.DifferentLengthsAreNotUnorderedEqual | Naos.Example.Api.Console/.recipes/OBeautifulCode.Equality/EqualityExtensions.cs:351-354 | sequences of different lengths are never unordered-equal |
| EqualityExtensions.UnorderedEqualSymmetricAndWeaker | Naos.Example.Api.Console/.recipes/OBeautifulCode.Equality/EqualityExtensions.cs:320-325 | unordered equality is symmetric, and ordered equality implies it |
| EqualityExtensions.FirstIndexOf | Naos.Example.Api.Console/.recipes/OBeautifulCode.Equality/EqualityExtensions.cs:360-371 | the index found holds the element, and no earlier position does |
| EqualityExtensions.RemoveAt | Naos.Example.Api.Console/.recipes/OBeautifulCode.Equality/EqualityExtensions.cs:366 | removing position k shortens the list by one, keeps the elements before k and shifts those after it down by one |
| EqualityExtensions.RemoveAtMultiset | Naos.Example.Api.Console/.recipes/OBeautifulCode.Equality/EqualityExtensions.cs:366 | removing one position removes exactly one occurrence of its element from the multiset |
| EqualityExtensions.RemoveFirstMatch | Naos.Example.Api.Console/.recipes/OBeautifulCode.Equality/EqualityExtensions.cs:358-372 | the inner scan finds a match iff the element occurs, then removes exactly the first equal element; otherwise the list is unchanged |
| EqualityExtensions.MatchedElement | Naos.Example.Api.Console/.recipes/OBeautifulCode.Equality/EqualityExtensions.cs:362-370 | after a match the remaining copy is still the second multiset minus the processed prefix, and that prefix is still contained in the second multiset |
| EqualityExtensions.UnmatchedElement | Naos.Example.Api.Console/.recipes/OBeautifulCode.Equality/EqualityExtensions.cs:374-377 | when no match remains, the first sequence holds that element more often than the second, so returning false is correct |
| EqualityExtensions.IsUnorderedEqualTo | Naos.Example.Api.Console/.recipes/OBeautifulCode.Equality/EqualityExtensions.cs:328-381 | the greedy remove-first-match loops return true exactly when both are null or both sequences have the same multiset |
| JwtAuthenticationSettings.DefaultSettings | Naos.Example.Api.Console/.recipes/Naos.Bootstrapper/SpritelyHarness/Config/JwtAuthenticationSettings.cs:23-58 | a new settings object has empty client, server and priority lists and no certificates or authorization key |
| JoseJwtFormat.New | Naos.Example.Api.Console/.recipes/Naos.Bootstrapper/SpritelyHarness/JoseJwtFormat.cs:33-42 | null settings fail with an argument error naming "settings"; otherwise the component keeps exactly the given settings and the possibly absent key |
| JoseJwtFormat.Protect | Naos.Example.Api.Console/.recipes/Naos.Bootstrapper/SpritelyHarness/JoseJwtFormat.cs:50-53 | issuance always fails with "not supported" and never yields a token |
| JoseJwtFormat.IsNullOrWhiteSpace | Naos.Example.Api.Console/.recipes/Naos.Bootstrapper/SpritelyHarness/JoseJwtFormat.cs:68 | null text is blank and so is empty text; non-null text is blank exactly when every character in it is whitespace |
| JoseJwtFormat.BlankText | Naos.Example.Api.Console/.recipes/Naos.Bootstrapper/SpritelyHarness/JoseJwtFormat.cs:68 | null and empty text are blank; text with a non-whitespace character is not |
| JoseJwtFormat.IssuerProviders | Naos.Example.Api.Console/.recipes/Naos.Bootstrapper/SpritelyHarness/JoseJwtFormat.cs:75-78 | exactly one provider per allowed server, in the same order; provider i has server i's issuer and its decoded secret |
| JoseJwtFormat.IssuerProvidersAppend | Naos.Example.Api.Console/.recipes/Naos.Bootstrapper/SpritelyHarness/JoseJwtFormat.cs:75-78 | the projection maps a concatenation of server lists to the concatenation of their provider lists |
| JoseJwtFormat.InnerToken | Naos.Example.Api.Console/.recipes/Naos.Bootstrapper/SpritelyHarness/JoseJwtFormat.cs:73 | with no private key the token is the text itself; with a key it is the JWE decoding of the text with that key |
| JoseJwtFormat.Unprotect | Naos.Example.Api.Console/.recipes/Naos.Bootstrapper/SpritelyHarness/JoseJwtFormat.cs:66-85 | blank text is an argument error naming "protectedText"; a JWE failure is returned as it is; otherwise the result is the validator's, given the allowed clients unchanged and the providers of the allowed servers |
| JoseJwtFormat.BlankTextReachesNoLibrary | Naos.Example.Api.Console/.recipes/Naos.Bootstrapper/SpritelyHarness/JoseJwtFormat.cs:68-71 | for blank text no library can change the outcome, which is always a failure |
| JoseJwtFormat.NoKeyIgnoresJweDecode | Naos.Example.Api.Console/.recipes/Naos.Bootstrapper/SpritelyHarness/JoseJwtFormat.cs:73 | without a private key the JWE decryption function has no effect on the outcome |
| JoseJwtFormat.TicketComesFromValidator | Naos.Example.Api.Console/.recipes/Naos.Bootstrapper/SpritelyHarness/JoseJwtFormat.cs:80-84 | every ticket returned is the validator's own result, for non-blank text whose inner token was obtained |
| JoseJwtFormat.ConstructedFormatKeepsFields | Naos.Example.Api.Console/.recipes/Naos.Bootstrapper/SpritelyHarness/JoseJwtFormat.cs:24-41 | a constructed component reads exactly the settings and key it was given |

## Left out

- The comparer lookup `EqualityComparerHelper.GetEqualityComparerToUse` is not part of this model. Every element, value and key comparison is Dafny's `==`.
- The dictionaries' own key comparers are also `==`. So the two directional passes always agree. The second pass is still modelled as written.
- `ReferenceEquals` on two non-null arguments is folded into value comparison. The same object always passes the remaining steps, so the result does not change.
- Caching the value comparer in a local on first use (lines 96, 125-128) has no observable effect and is not modelled.
- The `foreach` over dictionary keys visits keys in an unspecified order. The model picks any remaining key. The result does not depend on the order.
- .NET collections are mutable objects. Here the inputs are immutable values, so "the inputs are unchanged" holds by construction. `IsUnorderedEqualTo` updates only its local copy `item2AsList`.
- JWE decryption (`JWT.Decode`), base64url decoding (`TextEncodings.Base64Url.Decode`) and JWT validation (`JwtFormat`) are library code. They are parameters of the model. Signature, issuer, audience and expiry checks are therefore not modelled.
- `IssuerProviders`: a secret that is not valid base64url is not modelled. The source's `Select` is deferred, so the point where that decoding exception would surface lies inside the validation library.
- `Unprotect`: library exceptions are modelled as `Failure` results of the library functions. The component neither catches nor wraps them.
- Any change to the shared settings object after construction is not modelled. The source keeps a reference to a mutable `JwtAuthenticationSettings` whose `AllowedClients` and `AllowedServers` have public setters, so `Unprotect` would see later changes, including a collection set to null. Here the settings are a value fixed at construction.
- `JwtAuthenticationServer`, `RelativeFileCertificate`, `StoreCertificate` and `AuthorizationSource` are not part of this model beyond the properties the shown code reads. Server issuer and secret are strings. The certificates are opaque locators. `AuthorizationSource` is not shown, so its values are opaque names.
- `IsNullOrWhiteSpace`: the whitespace set in `IsWhiteSpace` is the one .NET documents for `char.IsWhiteSpace`; it is not in the shown code. .NET strings are sequences of UTF-16 code units, while a Dafny `char` is a Unicode scalar value, so a lone surrogate cannot be represented.
- The RSA private key and the authentication ticket are opaque: a parameter list, and a type parameter.
