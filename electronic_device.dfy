/**
 * The three battery-holding devices. Each Python class keeps one integer,
 * `_battery_life`, set by its constructor, and one method that overwrites it
 * when given a value and then returns the status line. The classes differ
 * only in their name and starting value, so they are one class here,
 * `Device`, whose constant `kind` stands for the Python class.
 */
module ElectronicDevice {
  import opened Wrappers
  import opened Decimal
  import opened BatteryReport

  datatype Kind = SmartPhone | Laptop | SmartWatch {
    /** The Python class name, which the status line starts with. */
    function ClassName(): string {
      match this
      case SmartPhone => "SmartPhone"
      case Laptop => "Laptop"
      case SmartWatch => "SmartWatch"
    }
  }

  /** Different kinds have different class names. */
  lemma ClassNameInjective(k1: Kind, k2: Kind)
    ensures k1.ClassName() == k2.ClassName() <==> k1 == k2
  {
  }

  class Device {
    /** Which Python class this object is; never changes. */
    const kind: Kind
    /** The Python attribute `_battery_life`: any integer, with no bound. */
    var batteryLife: int

    constructor SmartPhone()
      ensures kind == Kind.SmartPhone && batteryLife == 10
    {
      kind := Kind.SmartPhone;
      batteryLife := 10;
    }

    constructor Laptop()
      ensures kind == Kind.Laptop && batteryLife == 5
    {
      kind := Kind.Laptop;
      batteryLife := 5;
    }

    constructor SmartWatch()
      ensures kind == Kind.SmartWatch && batteryLife == 24
    {
      kind := Kind.SmartWatch;
      batteryLife := 24;
    }

    /** The status line for the current state. */
    function Status(): (line: string)
      reads this
      ensures ParseReport(line) == Some(Report(kind.ClassName(), batteryLife))
    {
      ParseReportRoundTrip(kind.ClassName(), batteryLife);
      Describe(kind.ClassName(), batteryLife)
    }

    /**
     * `get_battery_life(battery_life=None)`: a given value replaces the stored
     * one as it is, negative or larger than the starting value alike; then the
     * status line for the stored value is returned.
     */
    method GetBatteryLife(newLife: Option<int>) returns (report: string)
      modifies this
      ensures newLife.Some? ==> batteryLife == newLife.value
      ensures newLife.None? ==> batteryLife == old(batteryLife)
      ensures report == Status()
      ensures ParseReport(report) == Some(Report(kind.ClassName(), batteryLife))
    {
      if newLife.Some? {
        batteryLife := newLife.value;
      }
      report := Status();
    }
  }

  /** A status line names the device kind and the level it was written for, and no other. */
  lemma StatusIdentifiesKind(k1: Kind, level1: int, k2: Kind, level2: int)
    ensures Describe(k1.ClassName(), level1) == Describe(k2.ClassName(), level2) <==> k1 == k2 && level1 == level2
  {
    DescribeInjective(k1.ClassName(), level1, k2.ClassName(), level2);
    ClassNameInjective(k1, k2);
  }

  /** A value, once set, is what a later call without a value reports. */
  method SetThenRead(d: Device, v: int) returns (afterSet: string, afterRead: string)
    modifies d
    ensures d.batteryLife == v
    ensures afterSet == afterRead == Describe(d.kind.ClassName(), v)
  {
    afterSet := d.GetBatteryLife(Some(v));
    afterRead := d.GetBatteryLife(None);
  }

  /** Setting the same value twice leaves the state and the status line that setting it once gives. */
  method SetTwice(d: Device, v: int) returns (first: string, second: string)
    modifies d
    ensures d.batteryLife == v
    ensures first == second
  {
    first := d.GetBatteryLife(Some(v));
    second := d.GetBatteryLife(Some(v));
  }
}
