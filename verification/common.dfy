/** Machine types and small datatypes shared by the PIANO2 firmware model. */
module Common {

  /** An 8-bit unsigned value: `unsigned char`, TMR0, PR2 and CCPR1L on the PIC12F1840. */
  type byte = x: int | 0 <= x < 0x100

  /** A 16-bit unsigned value: `unsigned int` under the XC8 compiler. */
  type uint16 = x: int | 0 <= x < 0x1_0000

  /** A logic level read from an input pin, such as the active-low button S1. */
  type bit = x: int | 0 <= x < 2

  datatype Option<+T> = None | Some(value: T)

  /** What the PWM module is left doing: stopped (TMR2ON = 0), or running with
      period register PR2 = `period` and on-time register CCPR1L = `onTime`. */
  datatype Tone = Silent | Pwm(period: byte, onTime: byte)
}
