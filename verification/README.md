# Verified model of the read-only trading foundation

This project models five connected parts of the repository and proves what they promise:

- the exact decimal domain of `NUMERIC(38,18)`: parser, canonical printer, quantizer, bounded addition;
- the exchange client's clock and request pacing, as a step machine over any number of tasks;
- the instrument directory and its freshness gate, with the row conversions that feed it;
- the business configuration validator;
- process health under concurrent pause, ready, stop and snapshot calls;

and, as a smaller sixth part, the fact validator. `Catalog.dfy` joins configuration, client observations,
directory and assessment in one statement, `TargetAssessed`.

`dafny verify dfyconfig.toml` checks everything.

## How the parts are modelled

| files | content |
|---|---|
| `Prelude.dfy`, `Digits.dfy` | results, distinctness of sequences, powers of ten, Euclidean division, digit strings |
| `BigDecimals.dfy` | the parts of the decimal library that the code calls: many representations `unscaled * 10^(-scale)` of one number |
| `Decimals.dfy`, `Quantizer.dfy`, `Units.dfy` | `units.rs`; the library division is a digit-by-digit long division with a precision parameter |
| `Facts.dfy` | identities and the fact validator |
| `Instrument.dfy` | freshness, the directory, assessment |
| `Business.dfy` | the configuration validator and the account-mode check |
| `ClientClock.dfy`, `Pacing.dfy` | body reader, clock synchronization, observations, signing time; the concurrent tasks |
| `ExchangeRows.dfy` | row parsing and conversion into directory facts |
| `Health.dfy` | the health object and its interleaved atomic steps |
| `Catalog.dfy` | the components together |

A domain value is the integer numerator over 10^18; it is in the domain when the magnitude of that
numerator is below 10^38. `InDomain` also asks for the canonical representation, and `DomainIsReachable`
shows that these are exactly the values the parser produces.

Loops are methods with invariants. Each is proved equal to a specification (`CheckFact`, `Check`,
`Consistent`, `BodyOf`, `Quotient`, ...), and the lemmas say what that specification means. The client's and
the health object's fields are classes; their concurrent use is a state machine whose uninterrupted runs
are proved to agree with the methods (`SoloSynchronization`, `SoloPause`, `SoloReady`, `SoloStop`).

Strings stand for their UTF-8 bytes, one element a byte, so lengths are those the code compares.

Monotonic instants are nanoseconds. The wall clock is a separate reading that may jump freely. A sleeping
task may wake at any time from its deadline on, and may be cancelled at any suspension point.

## Where the code does less than one might expect

Each item names the lemma that shows it at a concrete input and the lemma with the exact condition.

- Quantizing is exact for all inputs if and only if the division keeps at least 39 significant digits
  (`PrecisionThreshold`), so the library's default of 100 is enough (`DefaultPrecisionIsExact`). With 38 or
  fewer, 39999999999999999999.999999999999999999 floored to the step 2*10^19 comes out above its input
  (`ShortPrecisionOvershoots`).
- The drift term of the signing-time check is not a constant of the synchronization. The wall clock is read
  before the monotonic progress, and both are cut to milliseconds. One steady clock may pass one call and
  refuse the next, by a carry or by a nanosecond between the readings (`VerdictWavers`). The drift is constant
  exactly when the readings coincide and receipt fell on a whole millisecond (`DriftConstantExactly`). For
  calls of bounded length, `SteadyVerdict` says exactly when every call of the minute passes and when none does.
- Merging observations by earliest source and latest receipt may make an unusable fact look fresh
  (`FreshMergeNeedsOrder`). It agrees with checking the parts one by one exactly when no part has its source
  after its receipt, or when even the merged fact has (`FreshMerge`, `FreshMergeAll`). Client observations
  always satisfy the first.
- An accepted SPOT row may fail specification validation (`SpotRowMayFail`). It validates exactly when its
  contract and settlement fields are empty (`AcceptedRowValidates`).
- A not-ready health snapshot may return a pair that held at no instant (`TornSnapshot`). It held at some
  instant of the call exactly when the flag was not cleared between the two readings, or the reason read first
  was met again with the flag down: when it was cleared, when it was loaded, or in between because the one
  lock owner that had loaded the flag before wrote it (`SnapshotHeldExactly`). A ready snapshot is always true
  at the instant it read the reason.
- Pacing spaces the stamps; a request goes out after its lock is released. Two requests may go out at the
  same instant (`SendsMayCrowd`). Requests sent within a delay of their stamps are sure to be a gap apart
  exactly when delay and gap together fit into 500 ms (`SendSpacing`).

## Model

| member | source | states |
|---|---|---|
| Decimals.ParseAcceptsExactly | crates/model/src/units.rs:40-52 | A text is accepted iff it is an optional minus, digits, and an optional point with 1 to 18 more digits, at most 64 characters, whole part below 10^20 |
| Decimals.AcceptedValue | crates/model/src/units.rs:40-55 | An accepted text yields exactly the number written, as a numerator over 10^18, inside the domain |
| Decimals.ParsePlainText | crates/model/src/units.rs:40-60 | For every representation: parsing its plain text gives the canonical form iff it has at most 18 fraction digits and is in range, apart from a zero padded with more than 63 zeros; the length and digit-count checks reject no other in-range number |
| Decimals.ParsePrintRoundTrip | crates/model/src/units.rs:40-60 | Parsing undoes printing for every domain value |
| Decimals.DomainIsReachable | crates/model/src/units.rs:32-55 | The canonical in-range values are exactly what the parser can produce |
| Decimals.NumeratorBijection | crates/model/src/units.rs:32-55 | Every integer below 10^38 in magnitude is the numerator of exactly one domain value |
| Decimals.PrintedFormIsCanonical | crates/model/src/units.rs:54-60 | Two accepted texts print alike iff they denote the same number |
| Decimals.PrintedText | crates/model/src/units.rs:57-60 | The printed text, character by character: no leading zero but in "0", no trailing fraction zero, no minus on zero, and it is itself accepted |
| Decimals.PrintedIsShortest | crates/model/src/units.rs:57-60 | The printed text is the one shortest accepted text of its number |
| Decimals.ZeroAndSignTests | crates/model/src/units.rs:57-65 | The printed form is "0" iff the value is zero; the sign test agrees with the number |
| BigDecimals.CanonicalUnique | crates/model/src/units.rs:53-54 | A number has one normalized representation |
| Quantizer.Divide | crates/model/src/units.rs:76 | The division with its loops, shortcuts and signs computes the quotient the lemmas speak of |
| Quantizer.DividePositiveRounds | crates/model/src/units.rs:76 | The division result is exact, or has at least the wanted number of digits and is rounded half up in the last |
| Quantizer.QuotientRounds | crates/model/src/units.rs:76 | The same for all signs: magnitude rounded, sign the product of the signs |
| Quantizer.RoundingStaysBelow | crates/model/src/units.rs:76 | An expansion longer than the numerator never rounds up into the next whole number |
| Quantizer.TruncatedQuotient | crates/model/src/units.rs:76 | With 39 digits or more the truncated rounded quotient is the integer quotient of the two numerators |
| Quantizer.FloorToStepExact | crates/model/src/units.rs:69-79 | All outcomes: Negative, ZeroStep, otherwise the exact floor; the final parse never fails |
| Quantizer.FloorIsLargestMultiple | crates/model/src/units.rs:67-79 | The result is a multiple of the step, within one step below the input, and the largest such |
| Quantizer.FloorAbsorbsFinerStep | crates/model/src/units.rs:69-79 | Flooring to a step first does not change the floor to any multiple of that step |
| Quantizer.FloorIdempotent | crates/model/src/units.rs:69-79 | Quantizing twice is quantizing once |
| Quantizer.FloorMonotone | crates/model/src/units.rs:69-79 | A larger input never quantizes to less |
| Quantizer.ShortPrecisionOvershoots | crates/model/src/units.rs:76 | With 38 digits or fewer a concrete input is quantized above itself |
| Quantizer.PrecisionThreshold | Cargo.toml:16 | Quantizing is exact for all inputs iff the division keeps at least 39 digits |
| Quantizer.DefaultPrecisionIsExact | Cargo.toml:16 | At the default of 100 digits quantizing is exact for all inputs |
| Units.RatioRange | crates/model/src/units.rs:326-331 | Exactly the values from 0 through 1 are ratios |
| Units.CheckedAddExact | crates/model/src/units.rs:158-167 | Addition is exact, and fails with OutOfRange iff the true sum has magnitude 10^20 or more |
| Units.AddAllExact | crates/model/src/units.rs:158-167 | Adding up a list succeeds iff every partial sum is in range, and then gives the exact total |
| Units.AddAllOrderFree | crates/model/src/units.rs:158-167 | Any two orders without an intermediate overflow give the same amount |
| Units.CodeLimits | crates/model/src/units.rs:106-118 | Currency codes have 2 to 12 characters, upper-case letters and digits after a letter, at the limits |
| Identity.IdLimits | crates/model/src/identity.rs:20-29 | Identifiers have 1 to 128 characters of the allowed kinds, starting with a letter or digit, at the limits |
| Facts.AnyRepeated | crates/model/src/facts.rs:402-405 | The input-identity loop finds a repetition iff the identities are not pairwise distinct |
| Facts.ValidateTarget | crates/model/src/facts.rs:391-437 | The strategy-target arm, with the exact order of its errors; an empty input list only for NoSignal and Unavailable |
| Facts.ValidatePositions | crates/model/src/facts.rs:442-473 | Accepted iff (product, side) keys are distinct and each position's kind, side, quantity and mode agree |
| Facts.Validate | crates/model/src/facts.rs:381-492 | The whole validator equals its specification |
| Facts.AcceptedEvents | crates/model/src/facts.rs:383-390 | A market event is accepted iff its session has 1 to 128 bytes and its sequence, if any, is not negative |
| Facts.AcceptedTargets | crates/model/src/facts.rs:391-437 | A target is accepted iff it ends no earlier than its source, has four versions, distinct inputs, inputs unless it says nothing, and a value of its own product; which error the others get |
| Facts.AcceptedSnapshots | crates/model/src/facts.rs:438-474 | A snapshot is accepted iff its currencies agree, its (product, side) keys are distinct and each position is of its kind, product and mode; which error the others get |
| Facts.AcceptedOrders | crates/model/src/facts.rs:475-482 | An order is accepted iff its quantity is of its product, and not zero when it is filled |
| Facts.AcceptedFills | crates/model/src/facts.rs:483-489 | A fill is accepted iff its quantity is of its product and not zero |
| Facts.OrdinaryFacts | crates/model/src/facts.rs:381-492 | An ordinary fact of every kind is accepted |
| Facts.NewEnvelope | crates/model/src/facts.rs:343-350 | An envelope is built iff the fact is valid, with the current versions |
| Facts.DecodeEnvelope | crates/model/src/facts.rs:370-377 | Decoding accepts exactly current-version valid facts and returns them unchanged |
| Facts.PositionBound | crates/model/src/facts.rs:438-474 | A valid snapshot over n products has at most 2n positions in net mode and 3n in long/short mode |
| Facts.NetTargetOfSigned | crates/model/src/facts.rs:418-428 | Every signed in-domain amount has an accepted net target, from which it can be read back |
| Facts.SignedOfNetTarget | crates/model/src/facts.rs:418-428 | A net target is accepted iff it is the target of its own signed amount: direction and magnitude are in bijection with signed decimals, Flat iff zero |
| Freshness.FreshWindow | crates/instrument/src/lib.rs:319-340 | A fact is fresh iff source <= receipt <= now <= source + age limit; the checked subtractions never fail on nonnegative times |
| Freshness.FreshMerge | crates/okx-client/src/lib.rs:305-313 | A merged fact is fresh at every time iff both parts are, exactly when neither part is inverted or even the merged fact is |
| Freshness.FreshMergeNeedsOrder | crates/instrument/src/lib.rs:333-338 | A concrete inverted part whose merge looks fresh while it is not |
| Freshness.MergeAllIsEnvelope | integration-tests/tests/stage1_catalog.rs:224-242 | Folding merges yields the least source and the greatest receipt |
| Freshness.MergeAllOrderFree | integration-tests/tests/stage1_catalog.rs:224-242 | The fold does not depend on the order |
| Freshness.MergeAllGrouping | integration-tests/tests/stage1_catalog.rs:224-242 | The fold does not depend on the grouping |
| Freshness.FreshMergeAll | integration-tests/tests/stage1_catalog.rs:224-242 | A fold is fresh at every time iff all its members are, exactly when no member is inverted or even the fold is |
| Instrument.IndexMappings | crates/instrument/src/lib.rs:165-177 | Succeeds iff product and instrument IDs are each distinct; the map then holds exactly the mappings |
| Instrument.IndexSpecs | crates/instrument/src/lib.rs:178-183 | Succeeds iff instrument IDs are distinct; the map then holds exactly the specifications |
| Instrument.CheckAll | crates/instrument/src/lib.rs:184-189 | In any iteration order: success iff every mapping finds a valid specification, and any failure is some mapping's own |
| Instrument.NewDirectory | crates/instrument/src/lib.rs:164-194 | Builds iff the inputs are consistent; which error means what |
| Instrument.OrderFree | crates/instrument/src/lib.rs:164-194 | Success, and the directory built, do not depend on the order of either input |
| Instrument.BuiltDirectory | crates/instrument/src/lib.rs:164-194 | Distinct products map to distinct instruments, each with a specification valid for it |
| Instrument.AssessExactly | crates/instrument/src/lib.rs:199-271 | Succeeds iff the product is mapped, the gates are open and now lies between the latest receipt and the earliest source plus the age limit; MissingSpecification iff unmapped |
| Instrument.MissingReported | crates/instrument/src/lib.rs:208-215 | In any directory: MissingSpecification iff the product has no mapping or its instrument no specification |
| Instrument.RefusalsAreTrue | crates/instrument/src/lib.rs:216-269 | An error is returned iff it is that of the first closed gate in the source's order; an unordered fact is reported as in the future, a stale one by its own name |
| Instrument.ValidSpecMeaning | crates/instrument/src/lib.rs:274-317 | Validity of a specification, read as conditions on numbers |
| Instrument.SpecRefusals | crates/instrument/src/lib.rs:274-317 | Each refusal of a specification, by its own condition and after those before it |
| Business.ValidateProducts | crates/config/src/business.rs:298-318 | The first failing product check in source order; otherwise the map of all products |
| Business.ValidateAccounts | crates/config/src/business.rs:319-340 | The first failing account check; otherwise the map of all accounts |
| Business.ValidateInputs | crates/config/src/business.rs:356-373 | The first failing input check, with the shared binding set extended by the input IDs |
| Business.ValidateTargets | crates/config/src/business.rs:374-396 | The first failing target check, with the shared binding set extended by the target IDs |
| Business.ValidateStrategies | crates/config/src/business.rs:341-397 | The first failing strategy check across all strategies |
| Business.Validate | crates/config/src/business.rs:278-399 | Accepts iff no check fails, and otherwise reports the first failing one |
| Business.AcceptsExactlyWellFormed | crates/config/src/business.rs:278-399 | No check fails iff the file is well formed: unique identities, resolved references, licensed and compatible targets |
| Business.ConfiguredProducts | crates/config/src/business.rs:307-317 | Every product has two different currencies and the settlement of its kind |
| Business.ConfiguredInputs | crates/config/src/business.rs:363-372 | Every input of a candle strategy reads candles, of a flow strategy trades, from a known product |
| Business.ConfiguredTargets | crates/config/src/business.rs:379-395 | Every target is licensed to its own account, suits the kind of its product, and has legs only where the account allows both sides |
| Business.HeaderRefusals | crates/config/src/business.rs:279-296 | The header errors, each exactly |
| Business.RefusalsAreTrue | crates/config/src/business.rs:298-397 | Every later error names something that is really wrong with the file |
| Business.ExampleAccepted | config/example.toml:1-92 | The example configuration is accepted |
| Business.StrategiesPass | crates/config/src/business.rs:341-397 | The strategy checks pass iff instance and binding IDs are unique and every strategy is sound under its own account |
| Business.BindingsUnique | crates/config/src/business.rs:342-378 | Binding IDs are globally unique iff each is new where the nested loops reach it |
| Business.InputProductsDistinct | crates/config/src/business.rs:356-372 | A strategy's inputs name pairwise distinct products |
| Business.ValidateActualMode | crates/config/src/business.rs:235-265 | The mode check equals its specification |
| Business.ModeRefusals | crates/config/src/business.rs:240-263 | An unknown account is reported as such, everything else as a mismatch |
| Business.AcceptedModes | crates/config/src/business.rs:235-265 | long_short_mode is accepted iff allowed, net_mode iff allowed and no leg target needs otherwise; every account has an accepted allowed mode |
| Business.LegsNeedLongShort | crates/config/src/business.rs:385-392 | A leg target exists only for an account that allows long_short_mode |
| Wire.ReadBody | crates/okx-client/src/lib.rs:650-660 | Returns the concatenation of the chunks, or ResponseTooLarge iff it exceeds 1 MiB; stops at the first chunk that would, and buffers no more than the limit at any point |
| Wire.BodyIgnoresBoundaries | crates/okx-client/src/lib.rs:650-660 | The result does not depend on where chunks are cut |
| Wire.ConcatAppend | crates/okx-client/src/lib.rs:650-660 | Later chunks follow earlier ones |
| Wire.IntegersRead | crates/okx-client/src/lib.rs:410 | A server time is read iff it is a signed digit string within 64 bits, and as the number it denotes |
| Wire.IntegersReadBack | crates/okx-client/src/lib.rs:410 | Reading undoes writing for every 64-bit integer |
| ClientClock.ReadOnlyClient.constructor | crates/okx-client/src/lib.rs:387-394 | A new client has no stamps and no clock |
| ClientClock.ReadOnlyClient.PaceRequest | crates/okx-client/src/lib.rs:626-631 | The stamp lies at least 500 ms after the previous one |
| ClientClock.ReadOnlyClient.PaceTime | crates/okx-client/src/lib.rs:400-405 | The stamp lies at least 5 s after the previous one |
| ClientClock.ReadOnlyClient.SynchronizeClock | crates/okx-client/src/lib.rs:399-424 | The new field values and the answer in every outcome: on success the row's number is stored as the server's time and answered, the middle of the two readings as the local one; on failure the clock stays |
| ClientClock.ReadOnlyClient.ObserveValue | crates/okx-client/src/lib.rs:565-584 | Observations use the stored clock; source and receipt differ by at most 5 s |
| ClientClock.WaitExactly | crates/okx-client/src/lib.rs:626-630 | A caller that arrives after the interval does not wait, an earlier one waits for what remains |
| ClientClock.StoredSync | crates/okx-client/src/lib.rs:407-423 | What is stored where, and which failure otherwise |
| ClientClock.StoredOffsetAccuracy | crates/okx-client/src/lib.rs:406-422 | If the server read its clock between the two readings and wrote it into the row, the stored offset misses the true one by at most half the round trip, rounded up |
| ClientClock.ObservedExactly | crates/okx-client/src/lib.rs:565-584 | Exactly when an observation succeeds, and its value, source and receipt |
| ClientClock.SignedExactly | crates/okx-client/src/lib.rs:597-611 | Exactly when each answer is given, and the signing time |
| ClientClock.MidpointNeverOverflows | crates/okx-client/src/lib.rs:411-413 | The checked midpoint never overflows and lies between the two readings |
| ClientClock.SyncWithinSkew | crates/okx-client/src/lib.rs:406-423 | A synchronization is stored only within the skew limit |
| ClientClock.MidpointAccuracy | crates/okx-client/src/lib.rs:411-413 | The midpoint misses any instant between the two readings by at most half the round trip, rounded up |
| ClientClock.ObservationLag | crates/okx-client/src/lib.rs:565-584 | Receipt minus source is exactly the positive part of the stored offset, at most 5 s |
| ClientClock.SteadyDrift | crates/okx-client/src/lib.rs:603-606 | Under a steady wall clock, with the two clocks read one after the other: receipt gap, plus a carry, less the milliseconds that begin in between |
| ClientClock.SteadyVerdict | crates/okx-client/src/lib.rs:597-608 | For calls of bounded length: exactly when every call of the validity minute gets a signing time, and when none does |
| ClientClock.DriftConstantExactly | crates/okx-client/src/lib.rs:603-606 | The drift is the same for all calls iff the readings coincide and receipt fell on a whole millisecond |
| ClientClock.VerdictWavers | crates/okx-client/src/lib.rs:603-608 | Two concrete synchronizations under which one call passes and another is refused |
| ClientClock.JumpBound | crates/okx-client/src/lib.rs:597-608 | A passing check bounds a wall-clock jump since the synchronization on both sides, by the limit shifted by the receipt gap |
| ClientClock.SigningTimeAccuracy | crates/okx-client/src/lib.rs:597-611 | The signing time is within 2 s of the server time carried forward monotonically |
| Pacing.StepKeepsInv | crates/okx-client/src/lib.rs:399-424 | Every step of every task, and every cancellation, keeps stamps, locks, sleepers and clock sound |
| Pacing.RunKeepsInv | crates/okx-client/src/lib.rs:399-424 | So does every run |
| Pacing.StepKeepsStoredClock | crates/okx-client/src/lib.rs:417-422 | Only a successful time request writes the clock, and what it writes |
| Pacing.StoredClockIsLatest | crates/okx-client/src/lib.rs:399-424 | In every reachable state the stored clock is that of the last successful time request, and none iff there was none |
| Pacing.ObservableAfterSync | crates/okx-client/src/lib.rs:565-584 | Within a minute of a synchronization, whatever other tasks do, an observation succeeds |
| Pacing.StepKeepsOthers | crates/okx-client/src/lib.rs:621-678 | A step of one task leaves the others where they are |
| Pacing.StepKeepsRecords | crates/okx-client/src/lib.rs:399-405 | Last stamps and logs change only by the event that belongs to them |
| Pacing.CancelAnywhere | crates/okx-client/src/lib.rs:399-405 | Every task may be cancelled at any time; that frees its lock and changes nothing else |
| Pacing.WindowBound | crates/okx-client/src/lib.rs:626-631 | Stamps a gap apart: a window holding n of them is at least n - 1 gaps wide |
| Pacing.PacingSafety | crates/okx-client/src/lib.rs:626-631 | In every reachable state: stamps 500 ms and 5 s apart, window counts bounded, no task with both locks, clock within skew |
| Pacing.StampsAppend | crates/okx-client/src/lib.rs:626-631 | A stamp, once made, stays in every longer run |
| Pacing.SendsWithinStamps | crates/okx-client/src/lib.rs:626-646 | In every reachable state no more requests have gone out than stamps were made |
| Pacing.SendsMayCrowd | crates/okx-client/src/lib.rs:630-646 | A concrete run of two tasks whose requests go out closer than the stamps, in the extreme at one instant |
| Pacing.SendSpacing | crates/okx-client/src/lib.rs:626-646 | Requests sent within a delay of their stamps are a gap apart in every run iff delay and gap fit into 500 ms |
| Pacing.NoDeadlock | crates/okx-client/src/lib.rs:399-405 | Whatever a task waits for, at most one interval of time enables a step that moves it or its lock's owner |
| Pacing.ReachableObservation | crates/okx-client/src/lib.rs:565-584 | In every reachable state a successful observation lags receipt by 0 to 5 s |
| Pacing.SoloSynchronization | crates/okx-client/src/lib.rs:399-424 | Without interference the steps leave the fields that `SynchronizeClock` promises, in every outcome |
| Pacing.SoloFetch | crates/okx-client/src/lib.rs:621-646 | An uninterrupted fetch stamps once, sends once and leaves the rest of the client alone |
| ExchangeRows.CollectInstruments | crates/okx-client/src/lib.rs:496-507 | All IDs in order, or an error iff a row is foreign, invalid or repeated |
| ExchangeRows.PositiveMeaning | crates/okx-client/src/lib.rs:830-836 | Accepts exactly the texts of positive domain numbers |
| ExchangeRows.RowsAcceptedExactly | crates/okx-client/src/lib.rs:769-828 | Which rows are accepted, in terms of positive numbers, currency codes and states |
| ExchangeRows.AcceptedRowMeaning | crates/okx-client/src/lib.rs:769-828 | What each field of the parsed row says, for both kinds |
| ExchangeRows.SpecSaysWhatTheRowSays | crates/okx-client/src/lib.rs:263-287 | The specification carries the row's own numbers, currencies, contract fields, state, group and times |
| ExchangeRows.AcceptedRowValidates | crates/okx-client/src/lib.rs:263-287 | Under the mapping it induces a SWAP row always validates, a SPOT row iff its contract and settlement fields are empty |
| ExchangeRows.SpotRowMayFail | crates/okx-client/src/lib.rs:769-828 | A concrete accepted SPOT row that does not validate |
| ExchangeRows.FeeGroupMeaning | crates/okx-client/src/lib.rs:517-563 | The whole answer: refused unless the one row has exactly one entry for the group, with rates between -1 and 1 and a valid time; then the observation of those rates, unless updated more than 5 s past the source |
| ExchangeRows.OwnFeeMatches | crates/okx-client/src/lib.rs:316-334 | A fee fetched for the specification's own group passes the fee gate, maker and taker kept apart |
| ExchangeRows.EligibilitySays | crates/okx-client/src/lib.rs:303-313 | Account and instruments of the listing, mode of the configuration, the older source and the later receipt |
| ExchangeRows.GroupLimits | crates/okx-client/src/lib.rs:523-528 | Fee groups have 1 to 32 letters and digits, at the limits |
| Health.HealthState.constructor | crates/telemetry/src/health.rs:23-30 | Starts live and not ready |
| Health.HealthState.Pause | crates/telemetry/src/health.rs:34-44 | Sets the given reason while live, shutdown afterwards |
| Health.HealthState.MarkReady | crates/telemetry/src/health.rs:48-56 | Clears the reason only while live |
| Health.HealthState.Stop | crates/telemetry/src/health.rs:59-62 | Ends not live with reason shutdown |
| Health.HealthState.TakeSnapshot | crates/telemetry/src/health.rs:65-76 | Ready iff live without a reason |
| Health.SoloPause | crates/telemetry/src/health.rs:34-44 | Uninterrupted, the atomic steps do what the method does |
| Health.SoloReady | crates/telemetry/src/health.rs:48-56 | Uninterrupted, the atomic steps do what the method does |
| Health.SoloStop | crates/telemetry/src/health.rs:59-62 | Uninterrupted, the atomic steps do what the method does |
| Health.SoloSnapshot | crates/telemetry/src/health.rs:65-76 | Uninterrupted, a snapshot returns the state and changes nothing |
| Health.StepKeepsOthers | crates/telemetry/src/health.rs:34-76 | A step concerns one thread; only a stop clears the flag, only a write changes the reason |
| Health.NoThreadStuck | crates/telemetry/src/health.rs:34-76 | In every reachable state each thread, or the owner of the lock, can go on |
| Health.RunKeepsInv | crates/telemetry/src/health.rs:34-76 | Lock ownership, and no stale belief in liveness after a stop returned, in every interleaving |
| Health.Monotone | crates/telemetry/src/health.rs:58-62 | Liveness once lost never returns |
| Health.StopIsTerminal | crates/telemetry/src/health.rs:58-62 | After any stop has returned: not live, reason shutdown, forever |
| Health.ReadySnapshotIsTruthful | crates/telemetry/src/health.rs:64-76 | A ready snapshot was true at the instant it read the reason |
| Health.SnapshotTruthfulExactly | crates/telemetry/src/health.rs:64-76 | A snapshot was true at the instant it read the reason iff the flag was not cleared before it was loaded |
| Health.AfterClearing | crates/telemetry/src/health.rs:34-62 | After the flag is cleared the reason changes only to what the one stale lock owner writes, and to shutdown |
| Health.SnapshotHeldExactly | crates/telemetry/src/health.rs:64-76 | A snapshot was true at some instant of its call iff the flag was not cleared in between, or the reason was met again at the clearing, at the load, or by the stale owner's write |
| Health.SnapshotAfterStop | crates/telemetry/src/health.rs:58-76 | A snapshot begun after a stop returned reports shutdown |
| Health.TornSnapshot | crates/telemetry/src/health.rs:64-76 | A run whose not-ready snapshot held at no instant |
| Catalog.ClientLag | crates/okx-client/src/lib.rs:565-584 | Every observation of a running client lags receipt by 0 to 5 s |
| Catalog.AssessmentWindow | crates/instrument/src/lib.rs:199-271 | From client observations, success for exactly one interval of now, which always reaches the earliest receipt plus the age limit less 5 s |
| Catalog.ConfiguredMappingsUnique | integration-tests/tests/stage1_catalog.rs:248-259 | Mappings drawn from a well-formed configuration never conflict |
| Catalog.CatalogBuildsExactly | integration-tests/tests/stage1_catalog.rs:248-262 | With one fetched row per product the directory builds iff every row agrees with its product |
| Catalog.ComposeEligibility | integration-tests/tests/stage1_catalog.rs:224-242 | The loop over the listings collects all IDs, the oldest source and the latest receipt |
| Catalog.ListedSomewhere | integration-tests/tests/stage1_catalog.rs:224-235 | An instrument is listed iff some listing holds it |
| Catalog.TargetGatesOpen | crates/config/src/business.rs:379-384 | For a target of a well-formed configuration the licence gate is open: the gates are open iff the remaining ones are |
| Catalog.TargetAssessed | integration-tests/tests/stage1_catalog.rs:215-262 | For every target of a well-formed configuration, a directory of fetched agreeing rows, composed eligibility and the group's own fee: assessment succeeds iff the mode is allowed, the instrument listed, the row live, and now lies in the one interval of all the observations |

## Left out

- HTTP, TLS, redirects, credential files, HMAC, Base64: foreign calls; a response is a parameter.
- SHA-256 digests: a version is any text of 64 characters, so nothing is said about which contents share one.
- TOML, JSON and Serde decoding: the model starts from typed rows and typed configuration values.
- The exchange envelope's business code and error text in `get_rows`, after the body is read.
- Calendar formatting of the signing time: `SigningTime` ends at the millisecond count.
- The decimal library itself is not part of the repository. Its parsing, plain printing, normalization and division (half-up in the last digit, 100 digits by default) are assumptions written out as functions; the threshold of 39 digits does not depend on the default.
- The network after a request is handed over, and lock fairness: `NoDeadlock` promises progress of the lock's owner or of some waiter, not of a particular one.
- 64-bit overflow of `server_ms - midpoint` and of the fee time comparison for absurd server times: these differences are unbounded integers here; every checked addition is modelled with its bounds.
- ClientClock.SteadyVerdict: assumes readings that fit into 64 bits with the skew limit added and a stored offset within it, because beyond them a call fails for a reason other than drift.
- Lock poisoning, and monotonic instants that run backwards.
- Weak memory orderings in the health object: its flag and reason are read and written in one interleaved order.
- Which error `Directory::new` reports among several faulty mappings: it depends on hash iteration order; `NewDirectory` says only that it is some mapping's own error.
- Record fields that no modelled decision reads (account level, order and fill identifiers, prices, contract type of an accepted row).
- `Price`, `Availability`, `Currency` and the identity types beyond the checks used here: wrappers that test one condition and hold the value.
- `deployment.rs`, telemetry logging and metrics: they compare endpoints and roles field by field, and write log lines and counters.
- Feed leases, order state, outbox, portfolio and accounting: they exist in documents only.
