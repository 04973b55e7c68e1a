# Verified model of the stars_gaming server core

The project models, in Dafny, the parts of the game server whose correctness is hardest to see from the
code: the token codec, the tables of logged-in players and rooms, the card dealer, the search for groups in a
hand of cards, the outgoing message queue with the client's write loop, and the session table. Each part is
proved to do what its reference promises, for all inputs and over all runs; where the code falls short of it, the
exact condition is proved.

| module | what it holds |
|---|---|
| `Gf256`, `Fips197` | the field, the S-box tables and the reference cipher, inverse ciphers and key expansion of FIPS 197 |
| `SBox` | the substitution box is the one FIPS 197 constructs from field inverses |
| `AesWords`, `AesCore` | the 32-bit table form of the cipher and the in-place key schedules, proved to compute the reference |
| `Bytes`, `Base64`, `Base64Legacy` | C strings; the block codec; the older codec with its signed accumulator |
| `Rfc1321`, `Md5Transform`, `Md5Context` | the reference digest; the unrolled transform; the buffered streaming context |
| `TokenCodec` | key derivation, zero-padded ECB and Base64 put together into the string functions |
| `Registry` | logged-in users, sessions and rooms as a machine over values, with its run theorems |
| `PlayerRegistry`, `Lobby` | the managers and rooms over shared player objects, refining that machine |
| `CardDealer` | the swap-with-last shuffle and deal, and the deck |
| `Choices`, `GroupRules` | every way to choose n cards, one move after another; the rules for straights and sets and what passes them |
| `GroupSearch`, `GroupFacts`, `HandFacts`, `SearchReach`, `SearchBest` | what the search for groups finds, as functions; that it is sound, complete and the best there is |
| `Combination` | the loops of the search and the declaration, computing those functions |
| `SendQueue`, `Client` | the growing ring and the one-write-at-a-time protocol |
| `SessionTable` | the bounded table of sessions and their ids, as a machine over values and over the session objects |
| `AesExamples`, `Md5Examples`, `Base64Examples`, `TokenExamples` | the worked examples of the standards, byte for byte |
| `Options` | the option type and set membership shared by the others |

Code that works in place on arrays or on fields is modelled by methods over arrays and classes, each tied by
its `ensures` to a function of the inputs or of the old state. The main theorems are
`AesCore.EncryptThenDecrypt`, `AesCore.Encrypt`, `AesCore.SetDecryptKey`, `AesExamples.AppendixB`,
`Md5Examples.DigestOfLetters`, `TokenCodec.StringRoundTrip`,
`Md5Context.HashChunks`, `Md5Context.Hash16`, `Base64.EncodeUndoesDecodeIff`,
`Base64Legacy.OlderRoundTrip`, `Base64Legacy.FitsBufferIff`, `PlayerRegistry.Server.Run` with `Registry.RunKeepsInv` and
`Registry.ExactIffClean`, `CardDealer.ShuffleIsBijection`, `Choices.EveryChoiceOnce`,
`GroupRules.IsCardsStraight`, `GroupRules.SetIffNaturalsTogether`, `HandFacts.CombinationsPartition`,
`HandFacts.ShownIffSetsUptoFour`, `SearchReach.NothingFoundIff`, `Combination.Combination.DefaultDeclare`,
`SearchBest.StraightsAreFound`, `SearchBest.SetsAreFound`, `SearchBest.LeastOfShowings`, `SendQueue.RunIsFifo`,
`Client.FifoExactlyOnce`, `Client.SentAreDelivered`,
`Client.NothingAfterFailure` and `SessionTable.IdsNeverReused`.

## How the model reads the code

- Bytes are `bv8`, words `bv32`; the bit counter of MD5 is a pair of naturals with the reduction modulo 2^32
  written out. Sums in the MD5 operations are written in the order of the macro; addition modulo 2^32 has no
  preferred order in RFC 1321.
- S and Si are the byte values that Te1 and Td4 hold. Te0 to Te3 and Td0 to Td3 are defined from them by the
  formulas of server/common/libtools/AesCore.cpp:43-53. The loops are those without FULL_UNROLL, the byte order
  macros those for compilers other than MSVC. The repeated lookup expressions are named (`EncWord`, `DecWord`
  and so on), and a moving pointer is an array with an offset.
- The values of rand() are arguments. In server/server/gamesvr/CardDealer.cpp each one is reduced modulo the
  size of the pile it draws from.
- A session is identified by its address, and the null pointer is the absent option. The player manager is the
  process-wide singleton, held by each room as a constant.
- Sorting cards is insertion sort: cards that compare equal are equal, so any sort gives the same list. The cards of a
  colour are looked up colour by colour, 0 to 255; a colour without cards yields nothing. A choice is a list of marks
  where the code has ones and zeros.
- server/server/gamesvr/Combination.cpp and Combination.h are not UTF-8 text, their comments being in a legacy encoding;
  their lines are counted by newline characters.
- boost::circular_buffer is a sequence with a capacity whose `PushBack` overwrites the oldest element when full.
- An asynchronous write is recorded when it is started; a completion can only be reported for a write that was
  started. Sessions are expired when the set passed to `CheckSessionAlive` says so.
- Base64ChPos subtracts the table's address from whatever strchr returns. For a character outside the table that is
  a null pointer; the byte it leaves is the argument `nullPos`, and what is proved holds for every value of it. For
  NUL strchr finds the table's terminator, at 64.
- Plain char is signed, as on the platforms the code is built for; this matters in the older Base64 encoder only.
- The code is followed where it differs from what its text suggests: `+ 1 % m_max_session_id` is a plain
  increment (server/common/libserver/ServerSessionManager.cpp:23); `memset(ctx, 0, sizeof(ctx))` clears eight bytes
  (server/common/libtools/MD5.cpp:264); the second digit of the older decoder is not skipped over bad characters
  because its loop tests the first (server/common/libtools/Base64.cpp:137-140); a message of 2^32 bytes or more is
  hashed only up to its length modulo 2^32 (server/common/libtools/MD5.cpp:276); a failed write leaves the client's
  queue unserved for good (server/common/libclient/Client.cpp:65-69); a wild card between two cards lets unequal points
  pass as a set (server/server/gamesvr/Combination.cpp:902-910); behind a two any ace ends the test for a pure straight
  with success (server/server/gamesvr/Combination.cpp:1150-1162); the test of the stop number against zero is always
  true, the number being unsigned.

## Model

| member | source | states |
|---|---|---|
| `Gf256.SubstitutionInverse` | server/common/libtools/AesCore.cpp:585-618 | the inverse substitution table undoes the substitution table on all 256 bytes |
| `Gf256.InvMixRowUndoesMixRow` | server/common/libtools/AesCore.cpp:43-53 | the coefficient rows [02,03,01,01] and [0e,0b,0d,09] of the two table families are inverse over GF(2^8), for every four bytes |
| `SBox.SubstitutionIsAffine` | server/common/libtools/AesCore.cpp:585-618 | every byte of the table is the affine transformation of section 5.1.1 of FIPS 197 applied to the inverse of its index |
| `SBox.InverseIsInverse` | server/common/libtools/AesCore.cpp:585-618 | those are the inverses in GF(2^8), zero standing for itself |
| `SBox.SmallProducts` | server/common/libtools/AesCore.cpp:43-53 | the multiples by 02, 03 and 09 in the table formulas are products in the field |
| `SBox.LargeProducts` | server/common/libtools/AesCore.cpp:43-53 | so are those by 0b and 0d |
| `SBox.LargestProduct` | server/common/libtools/AesCore.cpp:43-53 | and by 0e |
| `Fips197.InvMixColumnsLinear` | server/common/libtools/AesCore.cpp:750-774 | InvMixColumns distributes over the round-key addition, which is what lets the decryption schedule be mixed once in advance |
| `Fips197.InvCipherUndoesCipher` | server/common/libtools/AesCore.cpp:781-1157 | under any schedule and any number of rounds the standard's inverse cipher undoes its cipher |
| `Fips197.EqInvCipherIsInvCipher` | server/common/libtools/AesCore.cpp:729-775 | on a decryption schedule the equivalent inverse cipher (section 5.3.5 of FIPS 197) computes the inverse cipher |
| `Fips197.EqInvCipherUndoesCipher` | server/common/libtools/AesCore.cpp:729-1157 | the equivalent inverse cipher on the decryption schedule undoes the cipher, for every state and schedule |
| `AesWords.EncRound` | server/common/libtools/AesCore.cpp:877-903 | sixteen table lookups and their sums are one full round: substitution, row shift, column mix and key addition |
| `AesWords.EncLastRound` | server/common/libtools/AesCore.cpp:934-965 | the masked lookups of the last round are a round without the column mix |
| `AesWords.DecRound` | server/common/libtools/AesCore.cpp:1068-1093 | sixteen Td lookups are one full round of the equivalent inverse cipher |
| `AesWords.DecLastRound` | server/common/libtools/AesCore.cpp:1125-1156 | the Td4 lookups are its last round |
| `AesWords.InvMixWordColumn` | server/common/libtools/AesCore.cpp:753-757 | looking Td up through the low byte of Te1 is the plain inverse column mix of a schedule word |
| `AesWords.RotSubWordColumn` | server/common/libtools/AesCore.cpp:656-660 | the four masked lookups of the key expansion are SubWord(RotWord(temp)) |
| `AesExamples.RotationOfWord` | server/common/libtools/AesCore.cpp:656-660 | the rotation in it takes the first byte of the word to its end |
| `AesWords.RconColumn` | server/common/libtools/AesCore.cpp:619-623 | the ten rcon constants are the successive powers of x in the field |
| `AesCore.Expand128` | server/common/libtools/AesCore.cpp:653-670 | the 128-bit loop stops after writing words 4 to 43, each satisfying the recurrence of section 5.2 of FIPS 197, and touches no other word |
| `AesCore.Expand192` | server/common/libtools/AesCore.cpp:673-692 | the same for the 192-bit loop and words 6 to 51, with the last turn cut after four words |
| `AesCore.Expand256` | server/common/libtools/AesCore.cpp:695-722 | the same for the 256-bit loop and words 8 to 59, with the extra substitution in the middle of a turn |
| `AesCore.SetEncryptKey` | server/common/libtools/AesCore.cpp:628-724 | status -1, -2 or 0 exactly as the arguments deserve; on 0 the schedule words are KeyExpansion of the key, which gives the words of FIPS 197 appendix A, and the rest of the array is untouched; on an error nothing changes |
| `AesCore.ReverseRoundKeys` | server/common/libtools/AesCore.cpp:743-749 | the in-place swaps reverse the order of the round keys and leave the words behind them alone |
| `AesCore.InvMixRoundKeys` | server/common/libtools/AesCore.cpp:750-774 | the in-place loop mixes every round key but the first and the last, once |
| `AesCore.SetDecryptKey` | server/common/libtools/AesCore.cpp:729-775 | reversal and mixing compose to the decryption schedule of the key: outer round keys exchanged, inner ones inverse-mixed in reverse order; words behind the schedule are kept |
| `AesCore.EncryptRounds` | server/common/libtools/AesCore.cpp:876-932 | two rounds per turn with the exit in the middle perform Nr - 1 full rounds, using round keys 1 to Nr - 1 once each and in order |
| `AesCore.Encrypt` | server/common/libtools/AesCore.cpp:781-966 | the sixteen output bytes are Cipher() of section 5.1 of FIPS 197 on the input block, all other bytes are kept, also when input and output overlap |
| `AesCore.DecryptRounds` | server/common/libtools/AesCore.cpp:1067-1123 | the decryption loop performs Nr - 1 rounds of the equivalent inverse cipher |
| `AesCore.Decrypt` | server/common/libtools/AesCore.cpp:972-1157 | the output block is EqInvCipher() of section 5.3.5 of FIPS 197 on the input block |
| `AesCore.DecryptBlockUndoes` | server/common/libtools/AesCore.cpp:628-1157 | as byte functions of key and block, decryption undoes encryption |
| `AesCore.EncryptThenDecrypt` | server/common/libtools/AesCore.cpp:628-1157 | the four interface functions together: for every 128-, 192- or 256-bit key and every block, decrypting the encrypted block returns it |
| `AesExamples.AppendixB` | server/common/libtools/AesCore.cpp:628-966 | the key and the block of appendix B of FIPS 197 give the ciphertext printed there |
| `AesExamples.RoundCounts` | server/common/libtools/AesCore.cpp:642-647 | ten, twelve and fourteen rounds for the three key sizes |
| `AesExamples.FirstWordOf192` | server/common/libtools/AesCore.cpp:673-692 | the first expanded word of appendix A.2 is fe0c91f7 |
| `AesExamples.FirstWordOf256` | server/common/libtools/AesCore.cpp:695-722 | the first expanded word of appendix A.3 is 9ba35411 |
| `AesExamples.MiddleWordOf256` | server/common/libtools/AesCore.cpp:695-722 | the words 9 to 12 of appendix A.3, the twelfth through the substitution alone |
| `Base64.DigitsAreSextets` | server/common/libtools/Base64.cpp:201-208 | the byte shifts of Unit_Code are the four sextets of the 24-bit group of section 4 of RFC 4648 |
| `Base64Examples.Alphabet0` | server/common/libtools/Base64.cpp:197-198 | the digits 0 to 15 are the characters A to P |
| `Base64Examples.Alphabet1` | server/common/libtools/Base64.cpp:197-198 | 16 to 31 are Q to Z and a to f |
| `Base64Examples.Alphabet2` | server/common/libtools/Base64.cpp:197-198 | 32 to 47 are g to v |
| `Base64Examples.Alphabet3` | server/common/libtools/Base64.cpp:197-198 | 48 to 63 are w to z, the ten numerals, plus and slash |
| `Base64Examples.InTabIff` | server/common/libtools/Base64.cpp:240-244 | a character is looked up successfully if and only if some digit stands for it |
| `Base64Examples.TestVectors` | server/common/libtools/Base64.cpp:201-317 | "f", "fo", "foo" and "foobar" encode as in section 10 of RFC 4648 |
| `Base64Examples.LastDigits` | server/common/libtools/Base64.cpp:197-317 | the bytes fb and ff encode to "+w==" and "/w==" |
| `Base64.EncodeBuffer` | server/common/libtools/Base64.cpp:294-317 | the first 4 * ceil(n / 3) bytes of the destination are the encoding, later bytes are untouched |
| `Base64.EncodeString` | server/common/libtools/Base64.cpp:283-292 | reading the terminated buffer back as a C string loses nothing of the encoding |
| `Base64.DecodeBuffer` | server/common/libtools/Base64.cpp:319-348 | on any text every unit is decoded three bytes apart, the bytes a padded unit does not reach and all later ones are untouched, the length is 3 bytes per unit less the padding (or left as it was below four characters), and on well-formed text the bytes are the decoding |
| `Base64.DecodeString` | server/common/libtools/Base64.cpp:350-362 | no buffer for the empty string, else a buffer of three bytes per unit holding every decoded unit, which on well-formed text is the decoding |
| `Base64.DecodeUndoesEncode` | server/common/libtools/Base64.cpp:201-348 | every encoding is well formed and decodes to the bytes it came from, for every byte sequence |
| `Base64.EncodeUndoesDecodeIff` | server/common/libtools/Base64.cpp:201-348 | well-formed text is re-encoded to itself if and only if the unused bits of its last digit are zero (section 3.5 of RFC 4648) |
| `Base64.NotReencoded` | server/common/libtools/Base64.cpp:201-348 | "QR==" is well formed and is not what its byte encodes to |
| `Base64Legacy.FillBackwards` | server/common/libtools/Base64.cpp:64-67 | the backward fill puts the four low sextets of the accumulator in order |
| `Base64Legacy.EncodeChars` | server/common/libtools/Base64.cpp:37-93 | the whole older encoder, sign extension of char included, as a function of the bytes |
| `Base64Legacy.EncodesSmeared` | server/common/libtools/Base64.cpp:59-91 | on every input the older encoder is the block encoder applied to bytes each overwritten by 0xFF when a later byte of the unit is 0x80 or more |
| `Base64Legacy.AgreesIffUndisturbed` | server/common/libtools/Base64.cpp:37-93 | the two encoders agree if and only if no byte of 0x80 or more follows, in its unit, a byte other than 0xFF |
| `Base64Legacy.EncodersDiffer` | server/common/libtools/Base64.cpp:37-93 | on the bytes 0x41, 0x80 the two encoders differ |
| `Base64Examples.OlderSmears` | server/common/libtools/Base64.cpp:37-93 | of the bytes 0x41, 0x80 the older encoder makes "/4A=" |
| `Base64Legacy.NextDigit` | server/common/libtools/Base64.cpp:127-130 | the scan stops at the first character of the alphabet, or reports that the rest holds none |
| `Base64Legacy.NextDigitOrEnd` | server/common/libtools/Base64.cpp:149-155 | the scan for a third or fourth digit stops at the first digit or end mark, or reports that the rest holds neither |
| `Base64Legacy.ScanUnit` | server/common/libtools/Base64.cpp:126-178 | on any seven-bit text, how one turn ends (four digits, end mark, no digit, text exhausted), what it yields, where it stops and how many bytes it stored |
| `Base64Legacy.ScanWellFormed` | server/common/libtools/Base64.cpp:126-178 | on well-formed text one turn consumes one unit and yields its bytes, or ends at the padding with the bytes before it |
| `Base64Legacy.DecodeChars` | server/common/libtools/Base64.cpp:95-187 | on any seven-bit text the outcome (bytes, -1, or the exception of at) and the number of bytes stored; every non-empty well-formed text is decoded as by the block decoder, a success is never empty, and the stores fit the buffer under an exact condition |
| `Base64Legacy.DecodesWellFormed` | server/common/libtools/Base64.cpp:113-187 | on well-formed text the older decoder is the block decoder, except that it refuses the empty text |
| `Base64Examples.OlderSkips` | server/common/libtools/Base64.cpp:126-155 | a foreign character is passed over before a first digit and refused before a second |
| `Base64Legacy.FitsBufferIff` | server/common/libtools/Base64.cpp:113-178 | on every text the bytes stored stay inside the buffer of 3 * (n / 4) + 1 if and only if the text is not n >= 4 digits with n = 3 modulo 4 |
| `Base64Legacy.SevenDigitsOverrun` | server/common/libtools/Base64.cpp:113-178 | seven digits store five bytes in a buffer of four before the text runs out |
| `Base64Legacy.OlderRoundTripIff` | server/common/libtools/Base64.cpp:37-187 | as functions, the older decoder refuses what the older encoder makes of the empty input and returns any other input smeared, so unchanged if and only if it is not empty and sign extension leaves it alone, as it does on all seven-bit input; the stores fit the buffer |
| `Base64Legacy.OlderRoundTrip` | server/common/libtools/Base64.cpp:37-187 | the two older functions called one after the other do just that |
| `Md5Transform.SelectionF` | server/common/libtools/MD5.cpp:57-57 | the optimised F1 is the standard's F on all words |
| `Md5Transform.SelectionG` | server/common/libtools/MD5.cpp:58-58 | F2, built from F1, is the standard's G |
| `Md5Transform.Transform` | server/common/libtools/MD5.cpp:86-170 | the sixty-four unrolled macro calls are the sixty-four operations of section 3.4 of RFC 1321 with its index, shift and sine tables, plus the final addition |
| `Md5Examples.IndicesListed` | server/common/libtools/MD5.cpp:95-164 | the words the sixty-four operations take, one by one |
| `Md5Context.CountAdd` | server/common/libtools/MD5.cpp:181-186 | carry and shifted length keep the two words equal to 8 times the byte count modulo 2^64 |
| `Md5Context.AbsorbSplit` | server/common/libtools/MD5.cpp:206-214 | folding the transform over blocks splits at every block boundary |
| `Md5Context.Context.Init` | server/common/libtools/MD5.cpp:70-79 | a fresh context stands for the empty message |
| `Md5Examples.InitialBytes` | server/common/libtools/MD5.cpp:70-79 | its four words are the bytes 01 23 45 67 to 32 10 of section 3.3 of RFC 1321 |
| `Md5Context.Context.Update` | server/common/libtools/MD5.cpp:176-219 | the state is the fold over the full blocks of everything fed so far, the buffer its tail, the counter its length in bits, whatever the chunks |
| `Md5Context.Context.Final` | server/common/libtools/MD5.cpp:225-265 | through either padding branch the output is the digest of everything fed; two of the four state words are cleared |
| `Md5Context.PaddedOneBlock` | server/common/libtools/MD5.cpp:251-261 | up to 55 bytes in the buffer, padding and length complete exactly one block |
| `Md5Context.PaddedTwoBlocks` | server/common/libtools/MD5.cpp:243-261 | from 56 bytes on, the buffer is filled with zeros and one more block takes the length |
| `Md5Context.Hash16` | server/common/libtools/MD5.cpp:270-281 | the MD5 of the message for every message below 2^32 bytes; a longer one is cut to its length modulo 2^32 |
| `Md5Examples.DigestOfLetters` | server/common/libtools/MD5.cpp:70-281 | the digest of the letters a to z is the one of appendix A.5 of RFC 1321, evaluated through all sixty-four operations |
| `Rfc1321.PaddingAsRequired` | server/common/libtools/MD5.cpp:225-261 | padding is the message, the byte 80, fewer than 64 zeros and the bit length in eight bytes, lowest first, a multiple of 64 in all |
| `Md5Context.HashChunks` | server/common/libtools/MD5.cpp:70-265 | any sequence of updates gives the MD5 of the concatenation |
| `TokenCodec.Hash32` | server/common/libtools/MD5.cpp:283-302 | the text form is the 32 lower-case hex characters of the digest |
| `TokenCodec.GetKey` | server/common/libtools/AesBt.cpp:15-19 | the key is the first sixteen hex characters of the seed's MD5 |
| `TokenExamples.HexOfAllDigits` | server/common/libtools/MD5.cpp:283-302 | high nibble first, letters in lower case |
| `TokenExamples.KeyOfLetters` | server/common/libtools/AesBt.cpp:15-19 | the key of the seed of the letters a to z is "c3fcd3d76192e400" |
| `TokenCodec.EcbEncrypt` | server/common/libtools/AesBt.cpp:21-42 | the output is block-by-block AES-128 of the input, the last block completed with zeros; later bytes are left alone |
| `TokenExamples.EcbBlockAt` | server/common/libtools/AesBt.cpp:21-42 | block j of the ciphertext is the encryption of block j of the input alone |
| `TokenExamples.EcbLastBlock` | server/common/libtools/AesBt.cpp:31-41 | the last block is the encryption of what is left and zero bytes |
| `TokenCodec.EcbDecrypt` | server/common/libtools/AesBt.cpp:44-57 | every whole block is decrypted, the bytes behind the last one are left alone |
| `TokenCodec.EcbRoundTrip` | server/common/libtools/AesBt.cpp:21-57 | decrypting the encryption gives the input and the zeros that completed its last block |
| `TokenCodec.EncryptString` | server/common/libtools/AesBt.cpp:85-94 | the text is the Base64 of the encryption under the seed's key |
| `TokenCodec.DecryptString` | server/common/libtools/AesBt.cpp:96-109 | on any text the result is the decryption of the units as decoded, up to the first NUL, exactly so when there is a NUL or no rest shorter than a block and as a prefix otherwise; on well-formed text those bytes are the decoding |
| `TokenCodec.StringRoundTrip` | server/common/libtools/AesBt.cpp:85-109 | for every text and seed, decrypting the encrypted text returns the text up to its first NUL; the whole text if and only if it has none |
| `TokenCodec.EncryptThenDecrypt` | server/common/libtools/AesBt.cpp:85-109 | the two string functions called one after the other do just that |
| `Registry.StepKeepsInv` | server/server/gamesvr/PlayerManager.cpp:39-192 | every login, close, room entry and departure keeps: each online session belongs to a logged-in user holding it, and a user without a session is in a room |
| `Registry.RunKeepsInv` | server/server/gamesvr/PlayerManager.cpp:39-192 | the same over every run |
| `Registry.LoginBinds` | server/server/gamesvr/PlayerManager.cpp:99-130 | a login puts the user on the session, keeps his room, frees his other session, and changes no other user or session |
| `Registry.CloseReleases` | server/server/gamesvr/PlayerManager.cpp:39-69 | a close frees the session; its user stays without one while in a room and is forgotten otherwise; nothing else changes |
| `Registry.EnterSeats` | server/server/gamesvr/PlayerManager.cpp:145-171 | entering logs a new user in on the session and in the room, seats a roomless one, and leaves one in a room where he is |
| `Registry.LeaveForgets` | server/server/gamesvr/PlayerManager.cpp:173-192 | leaving logs the user out and frees his session; nothing else changes |
| `Registry.ExactIffClean` | server/server/gamesvr/PlayerManager.cpp:99-130 | from a state where the online table is the inverse of the session fields, a step keeps that if and only if it binds no session another user still holds |
| `Registry.CleanRunKeepsExact` | server/server/gamesvr/PlayerManager.cpp:39-192 | in every run of such steps the online table stays exactly the inverse of the session fields |
| `Registry.SharedSessionBreaksExact` | server/server/gamesvr/PlayerManager.cpp:99-130 | two users logging in on one session is a run that breaks it |
| `Registry.OustedStays` | server/server/gamesvr/PlayerManager.cpp:39-192 | a user logged in on a session that does not carry him stays so over every run without a login or departure of his |
| `Registry.TakenOverStaysLoggedIn` | server/server/gamesvr/PlayerManager.cpp:99-130 | once a second user logs in on his session, the first is reported on it through every later close, that session's included, until he logs in again or leaves a room |
| `Registry.LateCloseIsHarmless` | server/server/gamesvr/PlayerManager.cpp:39-69 | a session outside the online table stays outside until it is bound again, and closing it changes nothing |
| `Registry.CloseAfterRelogin` | server/server/gamesvr/PlayerManager.cpp:99-130 | after a relogin on another session, however late, the close of the old session changes neither table |
| `Registry.QueriesAgree` | server/server/gamesvr/PlayerManager.cpp:132-143 | what a user's session query answers agrees with the online table: one way always, both ways in exact states |
| `Registry.NoMoreOnlineThanLogin` | server/server/gamesvr/PlayerManager.cpp:413-416 | the active count never exceeds the user count |
| `PlayerRegistry.Server.OnlineQueriesAgree` | server/server/gamesvr/PlayerManager.cpp:194-280 | in an exact state the queries answered from the login table (is_player_online, check_player_session) agree with the online table |
| `PlayerRegistry.PlayerManager.AddUserSession` | server/server/gamesvr/PlayerManager.cpp:99-130 | login and relogin over the shared player objects are the login step; the session told to shut down is the old one, if there was another |
| `PlayerRegistry.PlayerManager.OnSessionClose` | server/server/gamesvr/PlayerManager.cpp:39-69 | the close step; the branch of the assert(0) is never reached |
| `PlayerRegistry.PlayerManager.MakePlayer` | server/server/gamesvr/PlayerManager.cpp:145-171 | a new player filed in both tables, the logged-in one if it is in no room, or none |
| `PlayerRegistry.PlayerManager.DestroyPlayer` | server/server/gamesvr/PlayerManager.cpp:173-192 | the user leaves both tables; the branch of the assert(0) is never reached for a logged-in player |
| `PlayerRegistry.GameRoom.AddPlayer` | server/server/gamesvr/GameRoom.cpp:128-160 | the three outcomes of entering a room, with every table and field each one changes |
| `PlayerRegistry.GameRoom.DestroyPlayer` | server/server/gamesvr/GameRoom.cpp:112-126 | the member leaves the room's table and both of the manager's |
| `PlayerRegistry.Server.AddRoom` | server/server/gamesvr/RoomManager.cpp:51-56 | a new room is filed under its id unless the id is taken, and no player table changes |
| `PlayerRegistry.Server.Enter` | server/server/gamesvr/GameRoom.cpp:128-160 | over any number of rooms the entry step; a player is returned if and only if the user now is in this room, and it is his login entry |
| `PlayerRegistry.Server.Leave` | server/server/gamesvr/GameRoom.cpp:112-126 | the departure step for a member |
| `PlayerRegistry.Server.IsPlayerInRoom` | server/server/gamesvr/PlayerManager.cpp:361-374 | the room id reported is that of the only filed room whose table holds the user |
| `PlayerRegistry.Server.Run` | server/server/gamesvr/PlayerManager.cpp:39-192 | every run over the objects keeps the three tables consistent - a user is in a room's table if and only if its login player names that room - and follows the value machine event by event |
| `PlayerRegistry.ServeFromStart` | server/server/gamesvr/PlayerManager.cpp:39-192 | a new server that opens its rooms and serves any run in them is in the machine's state after that run from the empty one, with the invariant, and with inverse tables when the run is clean |
| `Registry.LobbyIsRoomless` | server/server/lobbysvr/PlayerManager.cpp:44-61 | the lobby's close, which forgets session and user together, is the game server's close where nobody is in a room, over every run |
| `Registry.LobbyBijection` | server/server/lobbysvr/PlayerManager.cpp:126-157 | in every run that never shares a live session, users and sessions of the lobby are in bijection and equally many |
| `Lobby.LobbyManager.OnSessionOpen` | server/server/lobbysvr/PlayerManager.cpp:38-42 | an opened connection is timed and changes neither table |
| `Lobby.LobbyManager.OnSessionClose` | server/server/lobbysvr/PlayerManager.cpp:44-61 | the lobby's close step over the objects, and the connection-time entry goes too |
| `Lobby.LobbyManager.AddUserSession` | server/server/lobbysvr/PlayerManager.cpp:126-157 | the login step over the objects |
| `Lobby.LobbyManager.CheckUserMsg` | server/server/lobbysvr/PlayerManager.cpp:109-124 | a message is attributed to the online user of its session, whose session field is that session |
| `Lobby.LobbyManager.Run` | server/server/lobbysvr/PlayerManager.cpp:38-157 | every run of openings, logins and closes over the objects follows the lobby's machine, and the connection times follow theirs |
| `Lobby.ServeFromStart` | server/server/lobbysvr/PlayerManager.cpp:38-157 | a new lobby after any run that never shares a live session pairs its users and sessions one to one through the shared player objects |
| `CardDealer.DrawnFromPile` | server/server/gamesvr/CardDealer.cpp:163-180 | whatever the draws, what is drawn is a sub-multiset of the pile, and all of it after as many draws |
| `CardDealer.RestPlaces` | server/server/gamesvr/CardDealer.cpp:174-178 | the last card takes the place of the drawn one, the others stay, and a single card is not popped |
| `CardDealer.FirstDrawn` | server/server/gamesvr/CardDealer.cpp:163-180 | what the first two rolls draw |
| `CardDealer.DrawsInjective` | server/server/gamesvr/CardDealer.cpp:163-180 | different draw sequences give different orders |
| `CardDealer.DrawsSurjective` | server/server/gamesvr/CardDealer.cpp:163-180 | every order comes from some draw sequence |
| `CardDealer.ShuffleIsBijection` | server/server/gamesvr/CardDealer.cpp:163-180 | the draws (k-th below n - k) correspond one to one to the orders of n positions, so equally likely draws shuffle without bias |
| `CardDealer.ShuffleMovesPositions` | server/server/gamesvr/CardDealer.cpp:163-180 | a shuffle of any deck moves its cards as it moves the positions |
| `CardDealer.RollsAreDraws` | server/server/gamesvr/CardDealer.cpp:171-171 | reducing rand() modulo the pile gives such draws, with the same result |
| `CardDealer.DealIsPrefix` | server/server/gamesvr/CardDealer.cpp:105-124 | a deal of fewer cards is the beginning of a full draw |
| `CardDealer.DeckCounts` | server/server/gamesvr/CardDealer.cpp:126-153 | the deck holds every suited card twice, both jokers twice and nothing else |
| `CardDealer.DeckPlaces` | server/server/gamesvr/CardDealer.cpp:126-153 | where every pair of suited cards and the jokers stand |
| `CardDealer.Dealer.LayOut` | server/server/gamesvr/CardDealer.cpp:126-153 | the loops fill all 108 places and the running index ends at CARD_COUNT |
| `CardDealer.Dealer.constructor` | server/server/gamesvr/CardDealer.cpp:126-159 | the pile is the deck after a thousand shuffles, each drawing as its rolls say, so the full deck in some order |
| `CardDealer.Dealer.RandRankCards` | server/server/gamesvr/CardDealer.cpp:163-180 | the pile stays a permutation of the deck, namely the one the draws select |
| `CardDealer.Dealer.DealCard` | server/server/gamesvr/CardDealer.cpp:99-124 | exactly the requested number of cards, a sub-multiset of the deck, is appended to the hand |
| `Choices.EveryChoiceOnce` | server/server/gamesvr/Combination.h:101-135 | the masks listed are exactly the choices of n elements, each listed once |
| `Choices.MoveIsNext` | server/server/gamesvr/Combination.h:118-132 | moving the first mark that has room one place on, and those before it back to the front, leads from each mask to the next; the last one allows no move |
| `Choices.IndexToElem` | server/server/gamesvr/Combination.h:91-98 | the marked elements in order |
| `Choices.AllChoices` | server/server/gamesvr/Combination.h:101-135 | the loop that restarts its scan after every move ends, having listed every choice in that order |
| `GroupRules.IsCardsThreeOfKind` | server/server/gamesvr/Combination.cpp:871-921 | accepts three or four cards, two or more natural, whose neighbouring natural cards are of one point and different colours |
| `GroupRules.SetIffNaturalsTogether` | server/server/gamesvr/Combination.cpp:871-921 | among sorted cards the sets are exactly the accepted ones in which no wild card stands between two natural ones |
| `GroupRules.SplitSetPasses` | server/server/gamesvr/Combination.cpp:902-910 | five, wild six, seven is accepted and is no set |
| `GroupRules.IsCardsPureStraight` | server/server/gamesvr/Combination.cpp:1134-1167 | accepts three or more consecutive cards of one colour, or consecutive ones from the two on up to an ace, whatever follows the ace |
| `GroupRules.PureIffOneHighCard` | server/server/gamesvr/Combination.cpp:1134-1167 | among sorted cards the pure straights are exactly the accepted ones whose last but one is below the ace |
| `GroupRules.TwoAcesPass` | server/server/gamesvr/Combination.cpp:1150-1162 | a two and two aces of different colours are accepted and are no pure straight |
| `SearchBest.PureOfThree` | server/server/gamesvr/Combination.cpp:1134-1167 | which three cards pass as a pure straight |
| `GroupRules.IsCardsStraight` | server/server/gamesvr/Combination.cpp:923-1005 | on sorted cards accepts exactly the straights: natural cards of one colour and different points that, the ace high or low, as many consecutive points as there are cards hold |
| `SearchBest.StraightOfThree` | server/server/gamesvr/Combination.cpp:923-1005 | three natural cards in order are a straight if and only if they are of one colour and one above the other, or two, three, ace |
| `GroupRules.StraightWithinPoints` | server/server/gamesvr/Combination.cpp:923-1005 | with up to fourteen cards those points lie between 1 and 14, so every wild card stands for a point there is |
| `GroupRules.IsGroupsDeclare` | server/server/gamesvr/Combination.cpp:1082-1132 | accepts exactly groups by the rules with nothing loose, two straights, one of them pure |
| `GroupRules.CheckLoseDeclare` | server/server/gamesvr/Combination.cpp:1007-1080 | accepts exactly loose cards, straights when one is pure, and sets when there are two straights besides; the score is that of the loose cards |
| `GroupRules.DeclaresIffShows` | server/server/gamesvr/Combination.cpp:1007-1132 | a declaration is what a loser may show with nothing loose and two straights, one pure, and costs nothing |
| `GroupRules.Scores` | server/server/gamesvr/CardDealer.cpp:55-62 | pip cards score their pips, face cards and aces ten, wild cards nothing |
| `GroupRules.ScoreOfParts` | server/server/gamesvr/Combination.h:37-46 | the score of a hand is the sum over its parts |
| `GroupRules.SetOfThree` | server/server/gamesvr/Combination.cpp:871-921 | three natural cards are a set if and only if they are of one point and three colours |
| `GroupRules.SetOfTwoAndJoker` | server/server/gamesvr/Combination.cpp:871-921 | two natural cards and a joker are a set if and only if the two are of one point and different colours |
| `GroupFacts.RemovedCount` | server/server/gamesvr/Combination.cpp:822-833 | taking the cards of a group out one by one leaves the difference of the multisets |
| `GroupFacts.StraightsAreStraights` | server/server/gamesvr/Combination.cpp:547-612 | every straight the search finds in a hand of the two packs is made of its cards and is a straight by the rules, jokers and low ace included |
| `GroupFacts.SetsAreSets` | server/server/gamesvr/Combination.cpp:501-540 | every set the search finds is made of the hand's cards, and is a set by the rules if and only if it has no more than four cards |
| `HandFacts.CombinationsPartition` | server/server/gamesvr/Combination.cpp:293-493 | every combination the nested loops reach uses each card of the hand once, in a group by the rules or loose; the lives it claims are there; its score is that of the loose cards |
| `HandFacts.ShownIffSetsUptoFour` | server/server/gamesvr/Combination.cpp:1007-1080 | check_lose_declare accepts a combination of the search, at the same score, if and only if no set in it has more than four cards |
| `SearchReach.ThreeReach` | server/server/gamesvr/Combination.cpp:576-612 | any three cards of the hand that pass as a pure straight are found, but for two natural aces |
| `SearchBest.StraightsAreFound` | server/server/gamesvr/Combination.cpp:547-612 | every straight of the hand by the rules, jokers and low ace included, is found, one that passes as pure just as it is |
| `SearchBest.SetsAreFound` | server/server/gamesvr/Combination.cpp:501-540 | every set of the hand is found |
| `SearchBest.PlanFollowed` | server/server/gamesvr/Combination.cpp:293-493 | for a pure straight, a straight and up to two more groups of the hand, the loops reach a combination that costs no more than the cards those leave |
| `SearchBest.LeastOfShowings` | server/server/gamesvr/Combination.cpp:293-493 | for every way to show the hand that check_lose_declare accepts and whose sets are sets, the search reaches a combination that costs no more; a single straight that is the whole hand must have six cards |
| `SearchBest.CombinationIsShowing` | server/server/gamesvr/Combination.cpp:293-493 | a combination without a set of more than four cards is itself such a way, so the least of them |
| `SearchBest.NinesDeclared` | server/server/gamesvr/Combination.cpp:648-651 | two, three, four, and five, six, seven of another colour, and three nines cost nothing |
| `SearchReach.NothingFoundIff` | server/server/gamesvr/Combination.cpp:51-58 | the search finds no combination, which the assertion of default_declare forbids, if and only if the hand is three cards that form a pure straight |
| `SearchReach.FiveCardSetFound` | server/server/gamesvr/Combination.cpp:614-643 | four nines and a joker are offered as one set, which the rules refuse |
| `Combination.ToStraightFillJokerNum` | server/server/gamesvr/Combination.cpp:766-808 | the number of jokers from the gaps, with three cards and one joker at least, or none if they do not suffice |
| `Combination.AllCardsCombines` | server/server/gamesvr/Combination.cpp:861-868 | every choice of one or more of the jokers |
| `Combination.RemoveCards` | server/server/gamesvr/Combination.cpp:822-833 | the first occurrence of each card of the group is erased |
| `Combination.CanTake` | server/server/gamesvr/Combination.cpp:840-853 | finding and blanking in the padded copy succeeds if and only if the group is part of the cards as a multiset |
| `Combination.RemoveCardGroup` | server/server/gamesvr/Combination.cpp:835-859 | exactly the groups that are part of the cards are kept, in order |
| `Combination.Combination.CombineWithJokerCard` | server/server/gamesvr/Combination.cpp:547-574 | the cards with every choice of enough jokers, sorted, by the number of jokers |
| `Combination.Combination.SearchStraightFlush` | server/server/gamesvr/Combination.cpp:683-764 | the straights of GroupSearch, colour by colour and jokers alone |
| `Combination.Combination.SearchThreeOfKind` | server/server/gamesvr/Combination.cpp:501-540 | the sets of GroupSearch, point by point, which are all the sets there are |
| `Combination.Combination.SearchFourth` | server/server/gamesvr/Combination.cpp:448-488 | the innermost loop; fewer than three cards are left behind a fourth group, as the assertion there has it |
| `Combination.Combination.SearchAllGroup` | server/server/gamesvr/Combination.cpp:293-493 | the four nested loops with their early returns and the joker choices kept between turns list the combinations in order up to the first that ends the search |
| `Combination.CutMeaning` | server/server/gamesvr/Combination.cpp:293-493 | the list ends with the first combination that has both lives and no more loose cards than the stop number |
| `Combination.Combination.DefaultDeclare` | server/server/gamesvr/Combination.cpp:51-76 | unless the hand is a pure straight of three: a combination that partitions the hand, the last found if it scores nothing and else the first of the least score, whose score no way of showing the hand by the rules undercuts |
| `Combination.Combination.DeclareThenCheck` | server/server/gamesvr/Combination.cpp:51-1080 | what is declared is accepted by check_lose_declare at the same score if and only if no set in it has more than four cards |
| `SendQueue.PushAppends` | server/common/libmessage/SendQueue.cpp:18-31 | a push appends, or refuses at exactly 131072 messages and changes nothing; nothing queued is ever overwritten |
| `SendQueue.RunIsFifo` | server/common/libmessage/SendQueue.cpp:5-31 | in every run of pushes and pops the growing ring is a first-in first-out queue bounded by 131072, of capacity 256 doubled at most nine times |
| `SendQueue.Queue.PushMessage` | server/common/libmessage/SendQueue.cpp:18-31 | the push over the object; push_back never meets a full buffer |
| `SendQueue.Queue.Pop` | server/common/libmessage/SendQueue.cpp:7-16 | the oldest message, or none from an empty queue |
| `Client.StepKeepsInv` | server/common/libclient/Client.cpp:35-70 | every callback keeps the write protocol, or the stuck state a failed write leaves |
| `Client.RunKeepsInv` | server/common/libclient/Client.cpp:35-86 | the same over every run, with the failure flag set exactly by a failed write |
| `Client.FifoExactlyOnce` | server/common/libclient/Client.cpp:35-70 | in every run without a failed write: accepted messages are the completed ones followed by the queue, at most one write is outstanding, exactly while the queue is not empty, and it is the front |
| `Client.SendAccepted` | server/common/libclient/Client.cpp:35-49 | a message sent while connected is accepted and queued last, writes outstanding or not, unless 131072 are queued |
| `Client.SendStarts` | server/common/libclient/Client.cpp:35-49 | a message sent while not connected is dropped; into an empty queue it is written at once |
| `Client.ConnectionMoves` | server/common/libclient/Client.cpp:65-140 | a connect success opens the connection, any failure closes it, and none of them touches a message |
| `Client.SentAreDelivered` | server/common/libclient/Client.cpp:35-70 | over every run without a failed write that sends at most that many: the accepted messages are those sent while connected, in order, as the events alone tell, and the first of them, as many as writes completed, are the completed ones |
| `Client.SecondMessageDelivered` | server/common/libclient/Client.cpp:35-64 | of two messages, the second sent while the first is written, both are completed |
| `Client.NothingAfterFailure` | server/common/libclient/Client.cpp:65-86 | after a failed write no message is ever completed again, reconnects included, and the queue is kept |
| `Client.ProtocolIffNoFailure` | server/common/libclient/Client.cpp:35-70 | the write protocol holds after a run if and only if no write failed in it |
| `Client.FailingRun` | server/common/libclient/Client.cpp:35-86 | connect, send, fail is a run into the stuck state, with the message still queued |
| `Client.Connection.DoWrite` | server/common/libclient/Client.cpp:35-49 | the send step over the object, the answer of push ignored |
| `Client.Connection.OnWriteComplete` | server/common/libclient/Client.cpp:51-70 | the completion step over the object |
| `Client.Connection.OnConnectComplete` | server/common/libclient/Client.cpp:99-112 | a connect success or failure only moves the connected flag; no queued message is written |
| `Client.Connection.OnReadFailed` | server/common/libclient/Client.cpp:114-140 | a failed read only drops the connected flag |
| `SessionTable.StepKeepsInv` | server/common/libserver/ServerSessionManager.cpp:16-81 | every add, close and sweep keeps: ids are issued 1, 2, 3 and so on, the table keeps to its limit and holds issued ids only, no two sessions carry the same id; an admitted session gets an id never issued before |
| `SessionTable.RunKeepsInv` | server/common/libserver/ServerSessionManager.cpp:16-81 | the same over every run, whatever sessions it names |
| `SessionTable.IdsNeverReused` | server/common/libserver/ServerSessionManager.cpp:16-81 | in every run of adds, closes and sweeps the issued ids are positive and pairwise distinct, those of closed and swept sessions included, and no two sessions carry the same id |
| `SessionTable.IssuedAtMost` | server/common/libserver/ServerSessionManager.cpp:16-81 | a run issues no more ids than it has events, so INT_MAX events are always served |
| `SessionTable.ExactIffClean` | server/common/libserver/ServerSessionManager.cpp:16-81 | a step keeps every session filed under the id it carries if and only if it admits no session that is filed already |
| `SessionTable.OfferedOnceKeepsExact` | server/common/libserver/ServerSessionManager.cpp:16-81 | in every run that offers no session twice, keys and carried ids agree, both ways |
| `SessionTable.SecondOfferBreaksExact` | server/common/libserver/ServerSessionManager.cpp:16-27 | offering one session twice is a run that breaks it |
| `SessionTable.SessionManager.AddSession` | server/common/libserver/ServerSessionManager.cpp:16-27 | at the limit the session is closed and nothing else changes; below it the session gets an id that was never issued and is filed under it |
| `SessionTable.SessionManager.CloseSession` | server/common/libserver/ServerSessionManager.cpp:77-81 | the id carried leaves the table and the session carries -1; when sessions are filed under their ids a filed session leaves and no other close removes anything |
| `SessionTable.SessionManager.CloseTwice` | server/common/libserver/ServerSessionManager.cpp:77-81 | closing a session twice is closing it once |
| `SessionTable.SessionManager.CheckSessionAlive` | server/common/libserver/ServerSessionManager.cpp:29-43 | exactly the entries of expired sessions go |
| `SessionTable.SessionManager.Serve` | server/common/libserver/ServerSessionManager.cpp:16-81 | every run over the session objects that issues at most INT_MAX ids follows the machine event by event, so its ids are pairwise distinct; afterwards every session it named is known, so runs compose |
| `SessionTable.ServeFromStart` | server/common/libserver/ServerSessionManager.cpp:16-81 | a new manager serves any list of at most INT_MAX events on new sessions; if none is offered twice, keys and carried ids agree |

## Left out

- TokenCodec.DecryptString: where the blocks hold no NUL and a rest shorter than a block follows, only a prefix of the
  result is stated, because the code then reads bytes of its output buffer that nothing has written.
- Combination.Combination.SearchAllGroup: takes a hand of up to fourteen cards of the two packs, because remove_card_group
  copies the hand into an array of fourteen and hands come from the dealer.
- Combination.Combination.DefaultDeclare: compares with showings whose sets are sets; the rules accept others too
  (`GroupRules.SplitSetPasses`), which the search does not look for. A hand of three to five cards that is one straight
  is not compared, as the search passes over a group that leaves nothing.
- post_best_card and what it calls: which card to discard is a heuristic without a stated property, over a sort whose
  order among equals is unspecified.
- Base64Legacy.DecodeChars: takes seven-bit text, because a character of 0x80 or more indexes outside the table of 128.
  The bytes are a growing sequence; where they would leave the buffer is stated as a condition on the text.
- SessionTable.SessionManager.AddSession: below the limit takes fewer than INT_MAX ids issued, because the increment
  overflows after that.
- The 2048 constants of Te0 to Te3 and Td0 to Td3 are not listed one by one; the model has the formulas the source gives.
- BASE64_CH_SECRET: its end mark is also one of its digits, so text with that digit third or fourth in a unit is cut.
- The one-argument AES_ecb128_encrypt and AES_ecb128_decrypt: the two-argument ones at a fixed seed.
- The five-argument AES_ecb128_decrypt: it decodes into a null destination.
- The bias of rand() itself and of its reduction modulo the pile size.
- m_online_check_time, flush_user_online and the lobby's time-out sweep: clock reads that no table depends on.
- Token parsing, kick-out messages, shutdown messages beyond which session they go to, logging, timers, Redis, Mongo
  and message-queue transport: input and output.
- Lobby rooms (make_player, destory_player of the lobby): they use members its Player does not have.
- GameRoom message dispatch and broadcast, RoomManager lookup, conversions of cards and groups to messages, GG_ classes,
  byte-swap helpers, IoLoopPool: they would only add easy members.
- server/3rd: vendored libraries.
