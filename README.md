# Bat Signal battery devices, in Dafny

A model of `electronic_device.py` from Bat Signal, "the battery reader". The
file defines three device classes, `SmartPhone`, `Laptop` and `SmartWatch`,
under an abstract `ElectronicDevice`. Each object keeps one integer,
`_battery_life`, which its constructor sets to 10, 5 or 24 hours. Each class
has one method, `get_battery_life(battery_life=None)`. When it is given a
value, it stores that value as it is: there is no check and no clamping. It
then returns `"<ClassName> battery life: <n> hours."`.

The three classes have the same method body and differ only in name and
starting value. The model therefore has one class, `ElectronicDevice.Device`:

- a constant `kind` (a `Kind`: `SmartPhone`, `Laptop` or `SmartWatch`) stands
  for the Python class and gives the class name;
- a mutable `batteryLife: int` stands for `_battery_life`;
- there are three named constructors;
- `GetBatteryLife(Option<int>)` models the method, with `None` for the omitted
  argument.

The returned line is specified through `BatteryReport.Describe`. Its meaning
is fixed by a reader, `BatteryReport.ParseReport`, and two lemmas:

- every line reads back as the name and level it was written from;
- every line the reader accepts is exactly the line written for what it read.

As a consequence, a status line identifies both the device kind and the level.
The level is written the way Python's `str` writes an `int`, including the
minus sign of a negative level. That text is `Decimal.IntToDecimal`, and it is
proved a bijection with canonical decimal text, read by `Decimal.ParseInt`.

The setter in `electronic_device.py` stores any value it is given, and the
model does the same. There is no capacity, no validation, no clamping and no
rendering of a battery bar in that file, so none is modelled.

Files: `wrappers.dfy` (Option), `decimal.dfy` (integer text),
`report.dfy` (status line and its reader), `electronic_device.dfy` (the devices).

## Model

| member | source | states |
|---|---|---|
| `ElectronicDevice.Device.SmartPhone` | electronic_device.py:14-15 | a new SmartPhone is of kind SmartPhone and holds battery life 10 |
| `ElectronicDevice.Device.Laptop` | electronic_device.py:24-25 | a new Laptop is of kind Laptop and holds battery life 5 |
| `ElectronicDevice.Device.SmartWatch` | electronic_device.py:34-35 | a new SmartWatch is of kind SmartWatch and holds battery life 24 |
| `ElectronicDevice.Device.GetBatteryLife` | electronic_device.py:17-20 | a given value is stored exactly, with no bound or clamping, including negative values; without a value the stored level is unchanged; only the level can change (the kind is constant); the result is `Status()`, the status line for the level after the update, and it reads back as the class name and that level |
| `ElectronicDevice.SetThenRead` | electronic_device.py:18-20 | after setting v, a later call without a value reports v, and both calls return the same line |
| `ElectronicDevice.SetTwice` | electronic_device.py:17-20 | setting the same value twice gives the same state and the same line as setting it once |
| `ElectronicDevice.ClassNameInjective` | electronic_device.py:20 | the three class names written by the f-string (`SmartPhone`, `Laptop`, `SmartWatch`) are pairwise distinct |
| `ElectronicDevice.Device.Status` | electronic_device.py:20 | the line for the current state reads back as the device's class name and its stored level |
| `BatteryReport.Describe` | electronic_device.py:20 | the line is the name, then `" battery life: "`, then `IntToDecimal(level)` (the level as `str` writes it, which reads back as exactly the level by `Decimal.ParseIntRoundTrip`), then `" hours."`, each field at its own position; its meaning as a whole is fixed by `ParseReportRoundTrip` and `ParseReportCanonical` |
| `ElectronicDevice.StatusIdentifiesKind` | electronic_device.py:20 | two status lines are equal exactly when they come from the same device kind and the same level |
| `BatteryReport.ParseReportRoundTrip` | electronic_device.py:20 | the line name + " battery life: " + decimal level + " hours." reads back as exactly that name and level, for any name and any integer level |
| `BatteryReport.ParseReportCanonical` | electronic_device.py:20 | every line the reader accepts is the line the f-string writes for the name and level read |
| `BatteryReport.DescribeInjective` | electronic_device.py:20 | different (name, level) pairs give different status lines |
| `BatteryReport.SplitLevelOfDecimal` | electronic_device.py:20 | after the text ending in a space, the number at the end of the line is exactly the decimal text of the level |
| `Decimal.IntToDecimal` | electronic_device.py:20 | the level is written as canonical decimal text, which starts with '-' exactly when the level is negative |
| `Decimal.NatToDigits` | electronic_device.py:20 | the digits of a magnitude are canonical: at least one digit, and a leading zero only for 0 |
| `Decimal.NatToDigitsRoundTrip` | electronic_device.py:20 | the digits written for n denote n |
| `Decimal.CanonicalDigitsRoundTrip` | electronic_device.py:20 | every canonical digit string is the one written for the number it denotes |
| `Decimal.ParseIntRoundTrip` | electronic_device.py:20 | reading the decimal text of any integer gives that integer back |
| `Decimal.ParseIntCanonical` | electronic_device.py:20 | whatever the reader accepts is the decimal text of the integer it returns |
| `Decimal.IntToDecimalInjective` | electronic_device.py:20 | distinct levels are written as distinct text |

## Left out

- `main.py` (`display_battery_life`, `main`) is not part of this model. It builds one device of each kind and prints each one's line; that is console output and process entry, with no logic of its own.
- The abstract base `ElectronicDevice` (`ABC`, `@abstractmethod`) is not modelled as a type of its own. Its one abstract method has the same body in all three subclasses, so one class with a constant kind gives the same behaviour.
- Python's dynamic typing: `battery_life` may be any object, and the f-string would then show that object's `str` (for example `True` or `3.5`). The model takes the argument as `Option<int>` and stores only integers. Storage is unbounded in both Python and Dafny; the limit on turning an integer into text is a separate gap (next line).
- GetBatteryLife: does not model the interpreter's limit on converting an `int` to decimal text (`sys.get_int_max_str_digits()`, 4300 digits by default since CPython 3.11 and the 3.7.14, 3.8.14, 3.9.14 and 3.10.7 security releases; it can be changed, or turned off with 0). Past that limit the f-string raises `ValueError` after the new value has already been stored, so that call and every later call without a value raise instead of returning a line. The model returns a status line for every integer.
- IntToDecimal: writes every integer, whatever its number of digits; the same interpreter digit limit, under which `str` raises `ValueError`, is not modelled.
- Capacity, validation in the setter, increase/decrease clamping, full charge, fill fraction, bar width and colour bands do not occur in `electronic_device.py` and are not modelled.
