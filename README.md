# Heat-exchanger design tool — a Dafny model of its calculation core

The tool is a one-page form. The user enters the inlet and outlet
temperatures, mass flow rates and specific heats of a hot and a cold stream,
the overall heat-transfer coefficient U and a flow configuration
(counterflow or parallel flow). The tool then sizes the exchanger in one pass
of straight-line formulas:

- the heat duties of the two streams and their mean, Q;
- the end temperature differences and their log-mean (LMTD);
- the required area A = Q / (U · LMTD);
- the capacity rates, their ratio and the largest possible duty Q_max;
- the effectiveness Q / Q_max and NTU = U · A / C_min;
- the percentage mismatch between the two stream duties.

It rates the effectiveness on a four-tier scale and plots both stream
temperatures along the exchanger.

The model has four modules, one per part of the program:

- `ThermalEngine` (`thermal_engine.dfy`) is the calculation block.
  - The stream duties, end deltas, LMTD and capacity rates are functions of
    the inputs.
  - `Assemble` takes those numbers to the sized design. Each division of the
    block is a function of its own (`Area`, `CapacityRatio`,
    `Effectiveness`, `Ntu`, `BalanceErrorPct`). Q and Q_max are local values
    of `Assemble`, and C_min and C_max are the shared `Min` and `Max` of the
    two capacity rates.
  - `Evaluate` returns either the full result record or, when some divisor
    is zero or the logarithm's argument is not positive, the first step that
    fails (`DomainError`).
  - Lemmas state how the values relate. U cancels out of NTU. The
    configuration changes only dT1, dT2, LMTD, A and NTU. The heat-balance
    error is zero exactly when the duties agree and lies in [0, 200) for two
    positive duties. The capacity ratio lies in (0, 1]. Physically sensible
    inputs always evaluate.
- `PerformanceClassifier` (`classifier.dfy`) holds the four tiers with their
  labels, gauge colours and inclusive thresholds at 80, 60 and 40 percent.
- `TemperatureProfile` (`temperature_profile.dfy`) holds the sampled straight
  lines of the temperature plot:
  - their ends per configuration;
  - the gap at each end, which equals the end deltas of the engine;
  - the mirror relation between the two cold curves.
- `DesignForm` (`design_form.dfy`) holds:
  - the form's default inputs;
  - their exact results in both configurations;
  - the rating shown for a result.

All quantities are exact reals. The natural logarithm is a parameter
`ln: real -> real` of the engine. No property of it is assumed, except where
a lemma lists one among its hypotheses:

- `VanishesOnlyAtOne`, for physically sensible inputs;
- `ln(16/13) != 0` for the defaults in counterflow;
- `ln(25/4) != 0` for the defaults in parallel flow;
- `ln(2) = 0`, only for the lemma case that shows the zero-logarithm error
  can occur.

For the default inputs the two stream duties differ. The hot stream gives
up 2.5 · 4.18 · 60 = 627 kW, and the cold stream takes up
3.0 · 4.18 · 45 = 564.3 kW. As a result:

- the duty is the mean, 595.65 kW;
- the effectiveness is 57/125 = 0.456, rated Fair;
- the heat-balance error is 200/19 ≈ 10.5 %;
- C_hot = 10450 W/K, C_cold = 12540 W/K and C_ratio is 5/6;
- in counterflow, NTU is 19/5 · ln(16/13) ≈ 0.789 and A is 79.42 · ln(16/13) ≈ 16.5 m².

## Model

| member | source | states |
|---|---|---|
| `ThermalEngine.HotDuty` | app.py:165 | No contract: the body is the formula Q_hot = m_hot·cp_hot·(Th_in − Th_out), in kW. `PositiveDuties` and `Compute` state its properties. |
| `ThermalEngine.ColdDuty` | app.py:166 | No contract: the body is the formula Q_cold = m_cold·cp_cold·(Tc_out − Tc_in), in kW. |
| `ThermalEngine.EndDeltas` | app.py:171-176 | No contract: the body is the pair (dT1, dT2) the configuration selects, with the counterflow pair (Th_in − Tc_out, Th_out − Tc_in) and the parallel pair (Th_in − Tc_in, Th_out − Tc_out). `EndDeltasSameTotal` and `ProfileGapsAreEndDeltas` state its properties. |
| `ThermalEngine.CapacityRate` | app.py:187-188 | No contract: the body is the formula m·cp·1000, in W/K. `PositiveCapacity` states its sign. |
| `ThermalEngine.MeanDuty` | app.py:167 | No contract: the body is the formula Q_avg = (Q_hot + Q_cold)/2. `HeatBalance` and `BalanceErrorBound` state its properties. |
| `ThermalEngine.Lmtd` | app.py:178-181 | Within the 1e-6 tolerance the LMTD is dT1 exactly. Otherwise a value exists iff dT2 ≠ 0, dT1/dT2 > 0 and ln(dT1/dT2) ≠ 0. That value is non-zero, and times ln(dT1/dT2) it gives dT1 − dT2. |
| `ThermalEngine.Min` | app.py:189 | C_min is at most both capacity rates and equals one of them. |
| `ThermalEngine.Max` | app.py:190 | C_max is at least both capacity rates and equals one of them. |
| `ThermalEngine.Area` | app.py:184 | The area times U·LMTD gives back the duty. Defined only when U·LMTD ≠ 0. |
| `ThermalEngine.CapacityRatio` | app.py:191 | C_ratio times C_max gives back C_min. Defined only when C_max ≠ 0. |
| `ThermalEngine.Effectiveness` | app.py:195 | The effectiveness times Q_max gives back the duty. Defined only when Q_max ≠ 0. |
| `ThermalEngine.Ntu` | app.py:198 | NTU times C_min gives back U·A. Defined only when C_min ≠ 0. |
| `ThermalEngine.BalanceErrorPct` | app.py:201 | The error times Q_avg is 100·abs(Q_hot − Q_cold). Defined only when Q_avg ≠ 0. |
| `ThermalEngine.SizingRelations` | app.py:167-201 | No contract: the body lists how the sized fields fit together for a U and an inlet span. 2·Q_avg = Q_hot + Q_cold and Q = 1000·Q_avg. A·U·LMTD = Q. C_min and C_max are the min and max of the two rates. C_ratio·C_max = C_min. Q_max = C_min·span and ε·Q_max = Q. NTU·C_min = U·A. error·Q_avg = 100·abs(Q_hot − Q_cold). |
| `ThermalEngine.Assemble` | app.py:167-201 | When the stage's four divisors are non-zero, the record keeps its inputs (duties, end deltas, LMTD, capacity rates) and meets `SizingRelations` for the given U and inlet span. Also C_min ≤ C_max and C_min·C_max = C_hot·C_cold. |
| `ThermalEngine.WellPosed` | app.py:165-201 | No contract: the body lists the inputs on which no step of the block fails. Either the deltas are within the tolerance with dT1 ≠ 0, or dT2 ≠ 0, dT1/dT2 > 0 and ln(dT1/dT2) ≠ 0. Also U ≠ 0, C_max ≠ 0, C_min ≠ 0, Th_in ≠ Tc_in and Q_hot + Q_cold ≠ 0. `Evaluate`, `Compute` and `FirstFailure` pin it from both sides. |
| `ThermalEngine.Compute` | app.py:165-201 | For well-posed inputs the record holds the inputs' stream duties, the configuration's end deltas, their LMTD and both capacity rates. It meets `SizingRelations` for the inputs' own U and Th_in − Tc_in: A·U·LMTD = Q, Q_max = C_min·(Th_in − Tc_in), ε·Q_max = Q, NTU·C_min = U·A, and so on. Q_avg, C_min and LMTD are non-zero. |
| `ThermalEngine.FirstFailure` | app.py:171-201 | For inputs that are not well-posed, each error names a failing step of the block: dT2 = 0, dT1/dT2 ≤ 0, a zero logarithm of a positive ratio, U·LMTD = 0, C_max = 0, Q_max = 0, or Q_hot + Q_cold = 0. A sizing error is reported only when the LMTD exists and every earlier sizing divisor (U·LMTD, then C_max, then Q_max) is non-zero. |
| `ThermalEngine.SizingFailure` | app.py:184-201 | Once the LMTD exists, the failure is one of the four sizing divisions, each with its cause, and every division before it in the block (U·LMTD, then C_max, then Q_max) has a non-zero divisor. |
| `ThermalEngine.Evaluate` | app.py:165-201 | The evaluation succeeds iff the inputs are well-posed. A success has non-zero Q_avg, C_min and LMTD. |
| `ThermalEngine.SomeInputsEvaluate` | app.py:165-201 | Whatever the logarithm, some counterflow inputs evaluate to a full result: the error paths do not cover every input. |
| `ThermalEngine.EveryDomainErrorOccurs` | app.py:171-201 | Every failing step of the block occurs for some counterflow inputs, whatever the logarithm. The zero-logarithm step occurs for a logarithm that vanishes at 2. |
| `ThermalEngine.LmtdFallbackIgnoresLog` | app.py:178-179 | In the near-equal case the logarithm is never consulted: any two logarithms give Ok(dT1). |
| `ThermalEngine.LogArgumentPositiveIffSameSign` | app.py:181 | The logarithm's argument dT1/dT2 is positive iff both end deltas have the same sign. |
| `ThermalEngine.EndDeltasSameTotal` | app.py:171-176 | dT1 + dT2 is the same in both configurations: hot temperatures minus cold ones. |
| `ThermalEngine.CounterflowEqualDeltasIffBalanced` | app.py:165-176 | With equal non-zero capacity rates, the counterflow end deltas are equal iff the stream duties balance. |
| `ThermalEngine.HeatBalance` | app.py:201 | The heat-balance error is 0 iff Q_hot = Q_cold. It is non-negative when Q_avg > 0. |
| `ThermalEngine.BalanceErrorBound` | app.py:201 | For two positive duties, Q_avg > 0 and the error lies in [0, 200). |
| `ThermalEngine.CapacityRatioBounds` | app.py:189-191 | For positive capacity rates, 0 < C_ratio ≤ 1, with C_ratio = 1 iff the rates are equal. |
| `ThermalEngine.PositiveCapacity` | app.py:187-188 | Positive mass flow and specific heat give a positive capacity rate. |
| `ThermalEngine.EffectivenessPositive` | app.py:195 | For Q_max > 0 the effectiveness is positive iff the duty is. |
| `ThermalEngine.EffectivenessAtMostOne` | app.py:195 | For Q_max > 0 the effectiveness is at most 1 iff the duty does not exceed Q_max. |
| `ThermalEngine.NtuCancelsU` | app.py:184-198 | NTU = Q / (C_min·LMTD): U cancels out. |
| `ThermalEngine.OnlyAreaDependsOnU` | app.py:184-198 | Under another non-zero U′ the area scales as A′·U′ = A·U, and NTU is unchanged. |
| `ThermalEngine.ConfigurationIndependence` | app.py:165-201 | When both configurations are well-posed, their records differ at most in dT1, dT2, LMTD, A and NTU. |
| `ThermalEngine.PhysicalInputsAreWellPosed` | app.py:165-201 | Suppose flows, specific heats and U are positive, the hot stream cools, the cold stream warms, both end deltas are positive, and ln vanishes only at 1. Then the inputs are well-posed. |
| `ThermalEngine.PositiveDuties` | app.py:165-166 | A hot stream that cools and a cold stream that warms have positive duties. |
| `PerformanceClassifier.Tier.Label` | app.py:16-26 | No contract: the body gives the labels "Excellent", "Good", "Fair" and "Poor". `LabelsAndColorsDistinct` states that they differ. |
| `PerformanceClassifier.Tier.Color` | app.py:16-26 | No contract: the body gives the gauge colours green, limegreen, orange and red. `LabelsAndColorsDistinct` states that they differ. |
| `PerformanceClassifier.Classify` | app.py:15-26 | Excellent iff pct ≥ 80; Good iff 60 ≤ pct < 80; Fair iff 40 ≤ pct < 60; Poor iff pct < 40. |
| `PerformanceClassifier.ClassifyIsBestReached` | app.py:15-26 | The tier is the best one whose threshold the value reaches: it reaches its own tier and no higher one. |
| `PerformanceClassifier.EveryTierOccurs` | app.py:15-26 | Each of the four tiers is given to some effectiveness between 0 and 100 percent. |
| `PerformanceClassifier.ClassifyMonotone` | app.py:15-26 | A higher effectiveness never gets a lower tier. |
| `PerformanceClassifier.LabelsAndColorsDistinct` | app.py:15-26 | Distinct tiers have distinct labels and distinct gauge colours. |
| `TemperatureProfile.Position` | app.py:237 | The i-th of n positions lies in [0, 1]. The first is 0 and, for n ≥ 2, the last is 1. |
| `TemperatureProfile.HotAt` | app.py:240 | No contract: the body is the hot line Th_in − (Th_in − Th_out)·x, which is the same in both branches. `HotAtFalls` states its properties. |
| `TemperatureProfile.ColdAt` | app.py:241-244 | No contract: the body is the cold line of each configuration, Tc_out − (Tc_out − Tc_in)·x in counterflow and Tc_in + (Tc_out − Tc_in)·x in parallel flow. `ColdCurvesMirror` and `ProfileEnds` state its properties. |
| `TemperatureProfile.Profile` | app.py:237-244 | The profile has n samples. The i-th lies at Position(i, n) within [0, 1], its hot temperature is the hot line at that position, and its cold temperature is the configuration's cold line there. |
| `TemperatureProfile.PositionsIncrease` | app.py:237 | Positions strictly increase. |
| `TemperatureProfile.DefaultProfileSpacing` | app.py:237 | The plotted profile has 50 samples from x = 0 to x = 1, each 1/49 of the length after the one before. |
| `TemperatureProfile.ProfileIsStraight` | app.py:239-244 | For n ≥ 2, every hot and cold sample lies on the straight line between that curve's two end samples, at its own position x. |
| `TemperatureProfile.ProfileEnds` | app.py:239-244 | Hot runs from Th_in to Th_out. Cold runs from Tc_out to Tc_in in counterflow, and from Tc_in to Tc_out in parallel flow. |
| `TemperatureProfile.ProfileGapsAreEndDeltas` | app.py:171-176 | The hot-minus-cold gaps at x = 0 and x = 1 are the configuration's (dT1, dT2). |
| `TemperatureProfile.HotCurveIndependentOfConfiguration` | app.py:239-244 | Both configurations have the same positions and the same hot curve. |
| `TemperatureProfile.PositionMirror` | app.py:237 | For n ≥ 2, position n−1−i is 1 minus position i. |
| `TemperatureProfile.ColdCurvesMirror` | app.py:239-244 | For n ≥ 2, the counterflow cold curve is the parallel one read backwards. |
| `TemperatureProfile.HotCurveFalls` | app.py:240 | A cooling hot stream's samples never rise along the profile and stay between Th_out and Th_in. |
| `TemperatureProfile.HotAtFalls` | app.py:243 | The hot line of a cooling stream is lower further along and stays within [Th_out, Th_in]. |
| `DesignForm.Defaults` | app.py:108-157 | No contract: the body holds the form's default inputs. Hot: 150 → 90 °C, 2.5 kg/s, cp 4.18. Cold: 25 → 70 °C, 3 kg/s, cp 4.18. U = 500. `DefaultDuties`, `DefaultCounterflow` and `DefaultParallel` state its results. |
| `DesignForm.Rating` | app.py:205-209 | The gauge's rating is Excellent iff ε ≥ 0.8, Good iff 0.6 ≤ ε < 0.8, Fair iff 0.4 ≤ ε < 0.6 and Poor iff ε < 0.4. |
| `DesignForm.DefaultDuties` | app.py:108-167 | Default duties: Q_hot = 627 kW, Q_cold = 564.3 kW, Q_avg = 595.65 kW, heat-balance error 200/19 %. |
| `DesignForm.DefaultCounterflow` | app.py:108-201 | Defaults in counterflow, given ln(16/13) ≠ 0: evaluation succeeds with (dT1, dT2) = (80, 65), Q = 595650 W, C_hot = 10450, C_cold = 12540 and LMTD·ln(16/13) = 15. Also C_ratio = 5/6, ε = 57/125 (Fair), A = 79.42·ln(16/13) and NTU = 19/5·ln(16/13). |
| `DesignForm.DefaultParallel` | app.py:108-201 | Defaults in parallel flow, given ln(25/4) ≠ 0: evaluation succeeds with (dT1, dT2) = (125, 20), Q = 595650 W, C_hot = 10450, C_cold = 12540, LMTD·ln(25/4) = 105, C_ratio = 5/6, ε = 57/125 (Fair) and NTU = 19/35·ln(25/4). |
| `DesignForm.DefaultSizing` | app.py:184-198 | With the default duties and rates and any end deltas whose LMTD times l is dT1 − dT2: Q = 595650, C_ratio = 5/6, ε = 57/125, A·(dT1 − dT2) = 1191.3·l and NTU·(dT1 − dT2) = 57·l. |

## Left out

- The Streamlit page is not part of this model: page set-up, sidebar, input widgets, metrics, text, the Plotly gauge drawing and the Matplotlib plot. The form's values enter as an `ExchangerInput` and a `Configuration`. The rating is modelled, and so are the plotted samples.
- Display formatting (`:.2f`, `:.1f`, `:.3f`) and the "%" suffix are left out, because they only render numbers.
- Floating point is not modelled; all values are exact reals. The 1e-6 LMTD tolerance is kept as the exact constant 0.000001.
- Non-finite values are not modelled. In the program, `dT1 / dT2` with dT2 = 0 raises ZeroDivisionError. The NumPy logarithm of a non-positive number, and the later divisions on NumPy values, give NaN or infinity, and the page goes on. The model stops at the first failing step instead and reports it as a `DomainError`; the values a page would show after that point are not modelled.
- The natural logarithm (`np.log`) is a parameter. Its values are not characterised, so LMTD, area and NTU are exact only relative to the logarithm passed in. Where a lemma needs more (ln vanishes only at 1, or ln(16/13) ≠ 0), it says so in its own `requires`.
- `np.linspace(0, 1, 50)` is modelled as exact positions i/(n−1) for any n, with `DefaultPoints = 50`. Rounding of the floating-point positions is not modelled.
- The labels of the configuration radio ("Counterflow", "Parallel Flow") become the two constructors of `Configuration`. Any value other than "Counterflow" takes the parallel branch, just as the `else` does.
