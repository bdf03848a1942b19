# SeaSentry image-analysis service, modelled in Dafny

SeaSentry's server exposes two command-style HTTP routes:

- `POST /v1/command/analyze_image/thermal_count` counts unmanned surface vessels (USVs) in a thermal image.
- `POST /v1/command/analyze_image/visible_identify` identifies vessels in a visible-light image.

Each route takes a command `{command_id, task_type, params: {image_path}}`. It calls a task handler. It then answers with exactly one envelope, which echoes the command id. The envelope is either SUCCESS with a task-specific result, or FAILURE with a numeric error code and a message, and it comes with an HTTP status.

This project models that request/response logic as pure functions:

- `Wire`: the envelope and command records.
- `Errors`: the Python exception classes involved, and a handler outcome. An outcome is either the value the handler returned or the exception it raised.
- `Thermal`: the counting handler. It checks that the file exists, rewraps decoding errors, and computes `round(abs(raw))`. Python's float is modelled with its NaN and infinity cases, and `round` uses ties-to-even.
- `Visible`: the placeholder identification generator. It has 0 to 2 detections, 4-element boxes in fixed ranges, and identities `USV_1`, `USV_2`.
- `Decimal`: `str()` of a natural number, with its inverse. The inverse shows that identities are distinct.
- `Server`: the two routes and the shared outcome-to-reply conversion. A reference table maps each failure kind to its status and code, and the routes are proved to agree with it.

The filesystem is a parameter `existing: set<string>` holding the paths that exist. The network's raw output, or the exception raised while opening or evaluating the image, is a parameter `Thermal.Inference`. The random draws are `Visible.Draw` records, each constrained to the range it is drawn from. The response timestamp is a parameter.

Facts about the code that the model makes explicit:

- The identification handler never opens the image, so FileNotFoundError is its only exception. Provided the handler's logging does not raise (see "## Left out"), the identification route therefore never answers 422 or 500.
- A detection's confidence is always a two-decimal value from 0.85 to 0.99.
- Only the identification route checks `task_type`. The counting route accepts any task type.

## Model

| member | source | states |
|---|---|---|
| Wire.Response.Status | server.py:42-57 | the envelope's status field reads SUCCESS exactly for a success envelope and FAILURE exactly for a failure envelope |
| Decimal.FromNat | server.py:136 | the number in an identity is rendered as a non-empty string of decimal digits with no leading zero |
| Decimal.ToNatFromNat | server.py:136 | reading a rendered number back gives the number, so the rendering loses nothing |
| Decimal.FromNatInjective | server.py:136 | two numbers render the same if and only if they are equal |
| Thermal.Abs | server.py:101 | abs() of a float is finite exactly when its argument is, and then it is the non-negative magnitude; NaN stays NaN and an infinity becomes positive infinity |
| Thermal.RoundHalfEven | server.py:101 | round() of a finite value is within one half of it, and is even whenever it lies exactly one half away |
| Thermal.RoundHalfEvenUnique | server.py:101 | any integer within one half of x that is even on a tie is the rounding of x, so the rounding contract determines the result |
| Thermal.PyRound | server.py:101 | round() returns an integer exactly for finite floats, and that integer is the ties-to-even rounding of the value; NaN and infinity raise exceptions that are not IOErrors |
| Thermal.ThermalUsvDetection | server.py:89-106 | a missing path raises FileNotFoundError before anything else is attempted, and only a missing path does; a count is returned exactly when the path exists and the network output is finite, and it is the ties-to-even rounding of the output's magnitude, a non-negative integer within one half of it; every IOError from decoding, FileNotFoundError included, is re-raised as a plain IOError with a "Failed to process image file: " message; a NaN or infinite output raises an exception that is not an IOError; other exceptions pass through |
| Visible.MakeDetection | server.py:129-140 | each detection has identity USV_{i+1}, a 4-element box with 100 <= x1, y1 <= 500, 100 <= x2-x1 <= 200, 100 <= y2-y1 <= 150, and a confidence of 85..99 hundredths; the draws can be read back from it |
| Visible.Generate | server.py:127-140 | the loop yields one detection per draw, in order, with every detection well formed, the i-th named USV_{i+1}, and the i-th draws recoverable from the i-th detection |
| Visible.VisibleUsvIdentification | server.py:109-143 | the handler raises exactly when the path is missing, and then raises FileNotFoundError; otherwise it returns one detection per draw (0 to 2) satisfying the shape invariants |
| Visible.IdentitiesDistinct | server.py:136 | no two detections of one run share an identity |
| Server.Conclude | server.py:166-185 | the success envelope and the except blocks of the counting route, repeated at server.py:208-231 on the identification route with the identification result type in the success envelope (the except blocks are identical): the reply echoes the command id and timestamp; it is SUCCESS with status 200 exactly when the handler returned, carrying the handler's value; otherwise status and code follow the reference table (FileNotFoundError 404/4041, other IOError 422/4221, anything else 500/5000) with str(e) as the message; the first three digits of every failure code are the HTTP status |
| Server.AnalyzeThermalImageForUsvCount | server.py:164-185 | the command id is always echoed; the status field reads SUCCESS exactly when the file exists and inference yields a finite value; the success envelope carries exactly the count the handler returned, which is >= 0; a missing file gives 404/4041; a raised exception maps through the same reference table and its message is str(e); a NaN or infinite network output gives 500/5000; the only statuses are 200, 404, 422 and 500 |
| Server.AnalyzeVisibleImageForUsvIdentification | server.py:192-231 | the command id is always echoed; a task type other than VISIBLE_USV_IDENTIFY gives FAILURE 400/4001 with a message naming it; the status field reads SUCCESS exactly when the task type matches and the file exists; the success envelope carries exactly the handler's detection list, 0 to 2 well-formed detections from which each draw can be read back in order; a missing file gives 404/4041; raised exceptions map through the reference table with str(e) as the message; the only statuses are 200, 400 and 404 |
| Server.TaskTypeGuardComesFirst | server.py:200-206 | with a wrong task type the identification reply is the same 400 whatever the filesystem and the draws, so the handler's outcome is never consulted, not even for a missing file |
| Server.ThermalIgnoresTaskType | server.py:164-167 | the counting route's reply does not depend on the declared task type |
| Server.DecodeNotFoundIsUnprocessable | server.py:104-106 | on the counting route, FileNotFoundError raised while decoding an existing path is reported as 422/4221, not 404 |
| Server.VisibleSuccessShape | server.py:129-140 | in every successful identification reply, each box has x2 > x1 and y2 > y1, and identities are pairwise distinct |

## Left out

- The `SimpleMLP` network, torchvision preprocessing and PIL decoding (server.py:82-100) are floating-point calls into foreign libraries. Their effect is a parameter: either a raw output value or the exception they raised.
- Thermal.RoundHalfEven: works on exact reals. It does not model binary floating-point representation, so a tie is a tie of the exact value.
- The `random` module is not modelled. The draws are parameters constrained to the generator's ranges. The confidence is taken as the already-rounded integer hundredths 85..99 instead of `round(uniform(0.85, 0.99), 2)` on floats.
- `os.path.exists` is modelled as membership in a set of existing paths. No other filesystem behaviour is modelled.
- The timestamp from `datetime.utcnow()` is not computed. It is a parameter that the reply echoes.
- `print` logging (server.py:90, 102, 105, 115, 124, 142) is assumed not to raise. It runs inside the routes' try blocks, so a print that fails would change the reply: a UnicodeEncodeError (a ValueError) on a stdout that cannot encode the text would give 500/5000 on either route, and an OSError such as a broken pipe from the print at server.py:102 would be rewrapped into 422/4221 although the count was computed. Neither case is modelled.
- FastAPI routing and the mutation of `Response.status_code` are modelled only by their result, the status carried in `Reply`.
- Pydantic validation of incoming bodies is omitted. A malformed body never reaches the routes' code; the framework rejects it with its own error shape.
- client.py is a demonstration HTTP client with no logic of its own, and is not part of this model.
