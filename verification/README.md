# Distance panel and car console: a Dafny model of the sequential core

Two demo scripts share one shape: a sampler produces a distance, a bounded
"last 12" history keeps the most recent samples, and the GUI shows an LED
count, five coloured LED labels, the latest distance and the history.

- `carrito.py` (the car console) measures a distance with an ultrasonic
  sensor. It lights 0-5 LEDs by thresholding the distance, stops the motors
  automatically below 7 cm, appends the distance to `all_distances` and to
  the 12-bounded `last_distances`, and refreshes the GUI. Five buttons write
  fixed patterns to the motor pins GPIO 6/13/19/26.
- `act5Leds.py` (the serial panel) polls a serial port every 100 ms. When
  input is waiting it reads an LED-count line and a distance line, shows
  them, and appends the distance to the 12-bounded `distancias`.

The model is functional: immutable datatypes and pure step functions, with
lemmas over traces of steps.

| file | module | what it models |
|---|---|---|
| `maybe.dfy` | `Maybe` | `Option`, standing for `None` and for a parse that raised `ValueError` |
| `history.dfy` | `History` | the shared 12-entry history: `Push` (append, then pop the oldest once over 12) against the reference `Window` (last min(n,12)) |
| `leds.dfy` | `Leds` | distance to LED count, the on/off mask, the label colours |
| `drive.dfy` | `Drive` | the five drive commands and the pin patterns they write |
| `car.dfy` | `Car` | one `read_distance` iteration as an atomic step, and traces that interleave it with button presses |
| `decimal.dfy` | `Decimal` | `rstrip` and the narrower whitespace `int()` skips, `int()` on a line, `str()` of an int, `'\n'.join` and `split` |
| `panel.dfy` | `Panel` | one `read_serial` poll over a queue of received lines, and draining the queue |

Inputs the scripts get from hardware are parameters. The measured distance
is a `real` argument of `Car.Sample`. The serial port is the list of text
lines received so far. A button press is a `Car.Event`.

How malformed serial input is handled follows the code. A first line that
is not an integer is the only line a poll consumes, and the line after it is
read as the next poll's LED count (`Panel.Read`, `Panel.Resync`). Only a bad
second line discards both lines of the pair. Any distance is accepted: a
negative one lights 0 LEDs and stops the car.

## Model

| member | source | states |
|---|---|---|
| `History.Push` | act5Leds.py:23-26 | appending then evicting ends in the new sample and never grows a buffer of at most 12 past 12; on such a buffer it equals the window of the extended sequence |
| `History.PushAllIsWindow` | carrito.py:121-127 | after any number of further samples, a buffer that started within capacity is the window of everything it has seen, with length at most 12 |
| `History.FromEmpty` | act5Leds.py:12-26 | starting empty, after n samples the buffer is the last min(n,12) samples in arrival order, of exactly that length |
| `History.FifteenSamples` | carrito.py:126-127 | samples 1..15 leave exactly 4..15 |
| `Leds.LedCount` | carrito.py:109-114 | the count is in [0,5]; it is 0 below 5 cm and 5 above 25 cm; between 5 and 25 cm inclusive it is the k >= 1 with 5k <= d < 5k+5, i.e. floor(d/5) |
| `Leds.CountIsThresholdsReached` | carrito.py:109-114 | the count equals the number of thresholds 5, 10, 15, 20, 25 cm the distance reaches |
| `Leds.CountMonotone` | carrito.py:109-114 | a larger distance never lights fewer LEDs |
| `Leds.LedMask` | carrito.py:98-103 | exactly five LEDs, and LED i is on iff i is below the count |
| `Leds.MaskIsPrefix` | carrito.py:98-103 | the lit LEDs form a prefix: clamp(k) ons followed by 5 - clamp(k) offs |
| `Leds.MaskCount` | carrito.py:98-103 | the number of lit LEDs is the unchecked count forced into 0..5 |
| `Leds.MaskOfCount` | carrito.py:98-103 | every prefix-shaped mask is the mask of its own lit count (inverse of `MaskCount`) |
| `Leds.LabelColours` | carrito.py:147-152 | five label colours; label i has its "on" colour iff i is below the count and its "off" colour otherwise; a count <= 0 gives all "off" colours, a count >= 5 all "on" colours |
| `Leds.ColoursFollowMask` | act5Leds.py:43-49 | label i shows its "on" colour iff LED i is on; any count <= 0 gives all "off" colours, any count >= 5 all "on" colours |
| `Drive.PinsOf` | carrito.py:51-79 | no command drives both inputs of one motor (6/13, 19/26) high |
| `Drive.Apply` | carrito.py:51-79 | after a command the pins classify as that command, whatever they were |
| `Drive.ClassifyInvertsPinsOf` | carrito.py:51-79 | reading the pins back names the command that wrote them, and only the five patterns are named |
| `Drive.PatternsDistinct` | carrito.py:51-79 | the five patterns are pairwise distinct |
| `Drive.InitialIsStopped` | carrito.py:22-25 | the all-low start-up state is the stop pattern |
| `Drive.Idempotent` | carrito.py:51-79 | issuing a command twice equals issuing it once |
| `Drive.LastCommandWins` | carrito.py:51-79 | after a non-empty command sequence the pins hold the last command's pattern |
| `Car.Sample` | carrito.py:105-130 | one iteration lights LedCount(d) LEDs and shows the same count in the labels, each lit label in its "on" colour and each unlit label in its "off" colour; it stops the car iff d < 7, else leaves the pins alone; it appends d to the full log and keeps the history the window of the previous one plus d; the history box shows that history unchanged |
| `Car.Step` | carrito.py:240-253 | a button press leaves the pins holding that command's pattern and changes nothing else; a measurement appends its distance to the full log, lights its LED count, and leaves the pins alone unless it stopped the car |
| `Car.StepRecords` | carrito.py:119-127 | a measurement adds its distance to both lists; a button press changes neither |
| `Car.RunRecords` | carrito.py:119-127 | over any interleaving of measurements and presses, the full log gains exactly the measured distances in order, and the history is the window of all of them |
| `Car.RunPins` | carrito.py:123-124 | the pins hold the pattern of the last event that wrote them: a press or a sub-7 cm measurement; otherwise they are unchanged |
| `Car.PressesKeepDisplay` | carrito.py:51-79 | button presses change neither the LEDs nor anything the GUI shows |
| `Car.LedsShowLatest` | carrito.py:116-117 | once a distance has been measured, the LEDs, the count label and the distance label reflect the latest one, whatever was pressed since |
| `Car.FromStartUp` | carrito.py:119-127 | from start-up, the full log is every distance measured and the history the last min(n,12) of them |
| `Car.StopIndependentOfLeds` | carrito.py:109-124 | 6 cm lights one LED and stops the car; 4 cm lights none and stops it; 7 cm lights one and does not stop it |
| `Car.ExampleRun` | carrito.py:105-130 | distances 30, 4, 10, 26 light 5, 0, 2, 5 LEDs, only 4 stops the car, and the history is those four |
| `Decimal.RTrim` | act5Leds.py:17 | the result is a prefix of the line ending in a character outside the trimmed whitespace class (or empty) |
| `Decimal.RTrimRemovesSpace` | act5Leds.py:17 | everything `rstrip` drops is whitespace of the trimmed class |
| `Decimal.RTrimTrailing` | act5Leds.py:19 | trailing whitespace such as "\r\n" is removed and nothing before it |
| `Decimal.ParseInt` | act5Leds.py:18-20 | `int(line)` succeeds iff (up to CPython's digit limit, see below), once the whitespace `int()` skips is gone from both ends, an optional sign and one or more digits remain; its value on every accepted line is fixed by `Decimal.ParseLine` |
| `Decimal.ParseLine` | act5Leds.py:18-20 | a line made of skipped whitespace, an optional '+' or '-' and one or more digits reads as the signed value of the digits, so "+5", "007" and " 5" all read as 5 |
| `Decimal.ParseIntValue` | act5Leds.py:18-20 | whitespace, an optional sign, any number of leading zeros and then `str(n)` read as n, or -n after '-' |
| `Decimal.LeadingZeros` | act5Leds.py:18-20 | leading zeros do not change the value of a digit string |
| `Decimal.SeparatorNotSkipped` | act5Leds.py:18 | `int()` rejects a line that starts with one of the separators 0x1C-0x1F, which `rstrip` would treat as whitespace |
| `Decimal.ShowNat` | act5Leds.py:39 | `str` of a natural number is a digit string with no leading zero whose value is the number |
| `Decimal.ParseShow` | act5Leds.py:18-20 | `int(str(n)) == n` |
| `Decimal.ShowParse` | act5Leds.py:18-20 | every canonical integer spelling parses, and printing the result gives the spelling back |
| `Decimal.ShowIsCanonical` | act5Leds.py:39 | `str` only prints canonical spellings |
| `Decimal.ShowInt` | act5Leds.py:39 | `str` of an int is a canonical spelling (digits with no leading zero, no '+', no "-0"), preceded by '-' exactly when the number is negative |
| `Decimal.ShowIntOneLine` | act5Leds.py:39 | `str` of an int contains no line break |
| `Decimal.Join` | act5Leds.py:39 | splitting the `'\n'`-joined lines at line breaks gives the lines back, when there is at least one line and none contains a line break |
| `Panel.Render` | act5Leds.py:33-41 | `update_gui` shows the count, gives each label below the count its "on" colour and every other label its "off" colour, shows the distance, and shows the last 12 entries of the history it is given |
| `Panel.Read` | act5Leds.py:15-28 | a poll is idle iff nothing is waiting; it fails on the first line iff that line is not an integer; it waits iff the first line parses and is the only one; it fails on the second line iff the first parses and the second does not; it records iff both parse, carrying their values |
| `Panel.Poll` | act5Leds.py:14-31 | exactly 0, 1 or 2 leading lines are consumed as `Read` decides; only a recorded pair changes the panel, and then the display is rendered from the history before the append and the history is pushed |
| `Panel.SnapshotPrecedesAppend` | act5Leds.py:21-26 | the history box shows the history before the new distance, and the stored history is that snapshot plus the new distance, cut to 12 |
| `Panel.Drain` | act5Leds.py:14-31 | polling an empty queue, or one where no line reads as an integer, leaves the panel unchanged; a history within 12 stays within 12 |
| `Panel.DecodedByRead` | act5Leds.py:17-28 | the reference decoding of a line stream agrees pair by pair with one poll's reading of the head of the queue |
| `Panel.DrainRecords` | act5Leds.py:14-31 | polling until the queue is empty or a poll waits leaves the history as the window of the old history plus the decoded distances |
| `Panel.FromStartUp` | act5Leds.py:12-26 | from start-up, `distancias` holds the most recent min(n,12) decoded distances in order |
| `Panel.ReadFrameLine` | act5Leds.py:17-20 | a line printed as a decimal and "\r\n" reads back as its number |
| `Panel.ReadFrame` | act5Leds.py:17-21 | a poll at a well-formed pair records that pair |
| `Panel.DecodeFrames` | act5Leds.py:17-26 | a well-formed stream decodes to exactly the distances sent |
| `Panel.WellFormedStream` | act5Leds.py:14-31 | from start-up, a well-formed stream leaves the last 12 distances sent |
| `Panel.HistoryTextRoundTrip` | act5Leds.py:37-41 | the history box has one line per displayed distance, and each line parses back to its distance |
| `Panel.Resync` | act5Leds.py:17-28 | a stray line ahead of a pair is consumed alone without changing the panel, and the next poll records the pair |
| `Panel.SeparatorLedLine` | act5Leds.py:17-18 | a first line led by a 0x1C-0x1F separator is discarded on its own |

## Left out

- `measure_distance` (carrito.py:81-96): trigger pulse, busy-wait echo timing and `round(duration * 34300 / 2, 2)`. This is hardware timing and floating point, so the distance is an input to `Car.Sample`. Its missing timeout is not modelled.
- Threads, `distance_lock` and the `time.sleep` periods (carrito.py:30, 119, 130, 138, 260-270). One `read_distance` iteration, including its GUI refresh, is one atomic step, and so is each button press. In the code the button callbacks (carrito.py:51-79) run on the Tk thread without taking `distance_lock`, so their four `GPIO.output` writes can interleave with the `stop()` at carrito.py:124 and leave a mixed pin pattern that `Drive.Classify` names `None`. `Car.Event` traces interleave whole steps and whole presses; `Drive.Apply` and `Car.RunPins` rely on that.
- Temperature and humidity polling (carrito.py:37-49, 132-134): a wrapper over the sensor driver plus formatting.
- Camera capture and the colour modes (carrito.py:32-35, 154-173): image library calls.
- Window layout, widget creation, `root.after` scheduling, `on_closing` and `GPIO.cleanup` (carrito.py:175-272; act5Leds.py:51-83).
- Console `print` output (act5Leds.py:22).
- Text formatting of float values. The car's labels and history box keep the numbers rather than their `str` text. In the code `distance // 5` is a float, so the label can read "LEDs encendidos: 1.0".
- Serial port opening and exit on failure (act5Leds.py:4-10), and `SerialException` logging (act5Leds.py:29-30). These are transport.
- UTF-8 decoding. Lines are modelled as already-decoded text. In the code, a line that fails to decode raises `UnicodeDecodeError`, a subclass of `ValueError`, and is dropped like a line that does not parse.
- `in_waiting` counts bytes. The model counts complete lines. A first line that parses with no second line received yet ends the poll as `Blocked`, standing for `readline` waiting for more input; `Panel.Drain` stops there.
- Decimal.ParseInt: covers ASCII input only. Like CPython's `int()` on ASCII text it skips tab, line feed, vertical tab, form feed, carriage return and space at both ends, and nothing else. Digit-group underscores, non-ASCII digits and non-ASCII whitespace are not accepted by the model. The model accepts digit strings of any length, but CPython's `int()` (3.11 and later, and the 3.7.14-3.10.7 security releases) raises `ValueError` for a string of more than 4300 digits, leading zeros included; such a line is discarded by the code and read by the model.
- Decimal.ShowInt: `str()` of an int with more than 4300 digits raises `ValueError` in those CPython versions; the model prints every int, so `Decimal.ParseShow` holds for all ints rather than only those the interpreter can print.
- Decimal.RTrim: the `StrSpaces` class lists only the ASCII characters `str.isspace` accepts. `str.rstrip()` also drops non-ASCII whitespace such as U+0085 and U+00A0, which the model keeps.
